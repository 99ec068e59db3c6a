# Event-experience control plane: a verified model

This project models the part of the repository that keeps story-event seeds, experience
contracts, arcs, reviews and bounded questions consistent, together with the code that
its guarantees lean on.

* **The control plane** (`scripts/event_experience.py`). Twenty operations change six
  tables under compare-and-swap with two revision counters and an idempotency log.
  `EventTypes` holds rows, requests and responses; `EventSpec` says what each operation
  does to the tables and how one call (`Step`) and a sequence of calls (`Run`) proceed;
  `EventService` is the service as a class whose methods update the tables statement by
  statement, with rollback, and are proved to do exactly what `Step` says.
  `EventLedger` and `LedgerOps` hold the joint seed/contract invariant; `QuestionMachine`,
  `ArcLedger`, `ReviewLedger`, `Manifest` and `CleanupSteps` the properties of questions,
  arcs, reviews, manifests and of the cleanup after a closed question; `Runs`, `Revisions`
  and `AskedQuestions` state what holds over whole runs. `Calls` says for a caller in a
  reachable state what any call does, from its arguments to its answer, and `Refusals` why
  it is refused; `Arguments`, `Effects` and `Answers` hold the parts of that, stated by what
  is in the tables and not by the functions that compute it.
* **The canonical serialisation** in the same file (`CanonicalJson`, `CanonicalPrinter`,
  `CanonicalReader`): equal canonical text means equal normalised value, insertion order of
  members aside, and an independent reader reads it back.
* **The session-close protocol** (`hooks/plot_progression_gate.py`): `SessionClose` is the
  interleaved protocol with unlocked writers, a marker directory that comes and goes, and
  crashes; `SessionCloseFiles` the functions that carry it out, with other processes at
  work between any two of their steps.
* **The quote windows** of automatic reviews (`ReviewQuotes`, `QuoteWindows`) against the
  strict evidence checks (`ReviewEvidence`).
* **Smaller parts**: the profile event chain (`ProfileChain`, `ProfileContents`,
  `StableIds`) and the two nearest-rank percentiles (`NearestRank`).

How to read it. SHA-256 is a free constructor: two digests are equal exactly when what
was hashed is equal. Times are natural numbers handed in by the caller. A failing
operation returns an error and, through the transaction, changes nothing. The unique index
on active contracts is modelled as part of the insertion, and proved never to be what
rejects one. Integers are unbounded except where the source bounds them: an offset of a
quote must not exceed 2147483647, and there the bound decides an exact condition.

Six promises that do not hold as one would first state them, and what holds instead. Where
the control plane is concerned, the runs start from the empty state (`Scenarios`).

* One active arc per chain, branch and artifact revision: `supersede_arc` moves an arc
  without looking. `Scenarios.TwoActiveArcs` is a run. It holds throughout a run exactly when
  no `supersede_arc` of it moved into a taken context (`Runs.ArcsUniqueUnlessMoved`).
* A retry of a committed `open_question` replays its response: the seeds are read before the
  key is looked up, so a retired seed makes the retry raise. `Scenarios.ARetryRaises` is a
  run, `Revisions.AskReplaysWhileSeedsLive` the exact condition.
* A contract names as superseded the one before it on its seed: a first contract may be
  proposed as superseding anything. `Scenarios.AFirstContractSupersedesAnything` is a run;
  `Scenarios.ProposedSupersessionStays` and `Scenarios.SupersessionsNamePredecessors` are the
  exact conditions, on the call and on the stored row.
* Every text that is not blank yields acceptable review quotes: not a text with an isolated
  surrogate, which cannot be encoded, nor one quoted beyond 2147483647.
  `ReviewQuotes.ASurrogateFails` and `ReviewQuotes.AnOverlongTextFails` are texts,
  `ReviewQuotes.QuotesPassTheEvidenceChecks` the exact condition.
* A session that cannot get the lock leaves a marker: a pass that removes the emptied
  directory in between makes the write fail. `SessionClose.ALockFailureLeavesNoMarker` is a
  run, `SessionClose.MarkerFailsIfRemoved` the exact condition.
* A marker that was left is taken up by the next pass: not one whose session id is blank,
  which the writer accepts and the reader refuses. No pass gets past it until the file is
  removed by hand. `SessionClose.ABlankSessionBlocks` is a run, with whatever follows;
  `SessionClose.BlankSessionsFailTheRead` the exact condition.

## Model

| member | source | states |
|---|---|---|
| Runs.SeedsAreBoundAsStored | scripts/event_experience.py:2572-2656 | in every reachable state: a seed is locked, expanded or generated exactly when it has one locked contract and its stored id and hash name it; a seeded seed names none and has at most one, proposed, contract; a retired seed has no active contract |
| Runs.SeedRevisionsAreLinear | scripts/event_experience.py:1457-1573 | in every reachable state: revisions of a seed are 1..n, all but the last retired; live seeds have distinct (chain, dependency order) and distinct ids |
| Runs.RetiredSeedsStay | scripts/event_experience.py:3123-3137 | a retired seed row never changes again, on any run, although retire_contract resets seed rows unguarded |
| Runs.ExpandedIsFrozen | scripts/event_experience.py:3228-3290 | from expanded on, contract id and hash never change, even past retirement; the status only moves forward; the contract stays locked until the seed retires |
| Runs.ContractsAreImmutable | scripts/event_experience.py:2612-2656 | on any run a contract keeps its payload, hash and supersession; a retired contract never changes; a locked one is never proposed again |
| Runs.ContractsAreOneLine | scripts/event_experience.py:2934-3030 | in every reachable state the contracts of a seed revision form one line: revisions 1..n, each from 2 on superseding the one before, all but the last retired |
| Runs.ClosedForGood | scripts/event_experience.py:2599-2615 | once the contracts of a seed revision are all retired, no later run adds one or locks the seed again |
| Runs.QuestionsAreWellFormed | scripts/event_experience.py:5301-5526 | in every reachable state: at most two invalid attempts, AWAITING_EVENT_EXPERIENCE exactly at two while open, a selection exactly when answered and always an offered option |
| Runs.ClosedQuestionsStay | scripts/event_experience.py:5301-5305 | ANSWERED and RETIRED are terminal: the row never changes again |
| Runs.DelegationInARun | scripts/event_experience.py:5210-5236 | in any reachable state, delegating the choice on an open unexpired question selects the recommended option |
| Runs.StepKeeps | scripts/event_experience.py:1052-1155 | every call keeps the joint invariant of all six tables and, of every earlier row in each of them, of the log and of the counters, what is permanent |
| Runs.RunKeeps | scripts/event_experience.py:1052-1155 | the same for every sequence of calls |
| Runs.TransactionKeeps | scripts/event_experience.py:1087-1099 | every operation's transaction keeps the invariants of seeds, contracts, questions, arcs, reviews and observed reviews |
| Calls.FreshCallDecides | scripts/event_experience.py:1052-1155 | for each of the twenty operations, under a key not used for it before and at the current revision: the call commits exactly when its arguments fit and the tables allow it; then the rows it names are exactly so, all others stay, the answer carries the row that is stored, and each counter moves by one or not at all; otherwise nothing changes |
| Calls.RefusedBeforehand | scripts/event_experience.py:1052-1085 | arguments that do not fit are refused whatever the log holds; a fresh key with another revision is refused as stale; nothing changes |
| Calls.AskDecides | scripts/event_experience.py:4931-5074 | open_question as a whole: it commits exactly when the manifest read is the one the caller names, the question and its lifetime fit, and the seeds are still askable; the question is about what was read |
| Refusals.FreshCallRefused | scripts/event_experience.py:1306-5614 | every error a fresh call reports names something that is so: of its arguments if they do not fit, else of the tables it meets; errors only a broken table could cause are never reported |
| Arguments.ArgumentsDecide | scripts/event_experience.py:4343-4517 | the checks made before a transaction accept exactly arguments that fit: for reviews of both kinds, bounded exact quotes of an encodable text with the given hash |
| Arguments.QuestionChecksDecide | scripts/event_experience.py:4806-4904 | a question is accepted exactly with two to five options of distinct ids and labels, up to case, one of them recommended, whose own spelling is then stored |
| Arguments.FoldDecides | scripts/event_experience.py:4851-4863 | the folding used inside Step identifies exactly texts that differ in the case of ASCII letters |
| Revisions.GapCountsControlOnly | scripts/event_experience.py:1099-1143 | on every run binding stays at most control, and control minus binding grows by exactly one per committed review operation or deciding answer |
| Revisions.WhichAdvance | scripts/event_experience.py:1099-1110 | binding advances only with control; control advances alone exactly for reviews and answers that select, cancel or expire |
| Revisions.WinsAreConsecutive | scripts/event_experience.py:1078-1126 | the advancing commits of a run take the revisions one after another, each expecting the one before |
| Revisions.OneWinnerPerRevision | scripts/event_experience.py:1078-1126 | of all clients expecting one revision at most one advances it |
| Revisions.FailureChangesNothing | scripts/event_experience.py:761-771 | a call that fails leaves tables, log and counters as they were |
| Revisions.RetriesReplay | scripts/event_experience.py:1068-1087 | after a commit, any later call of the same operation under the same key returns the first response if it makes the same request, and conflicts otherwise, at any revision, and changes nothing. Requests are the same when everything handed in is, but for the text a review quotes from and the case of a recommended id |
| Revisions.RequestsDecide | scripts/event_experience.py:1063-1069 | the request hash tells two requests of one operation apart exactly so |
| Revisions.KeysArePerOperation | scripts/event_experience.py:1071-1078 | two calls share a place in the log exactly when they are of one operation under one key |
| Revisions.BindingStampsManifests | scripts/event_experience.py:3709-3724 | on a run that leaves the binding revision where it was, every locked manifest that could be built is the same, and no other can |
| Revisions.RunSameLocked | scripts/event_experience.py:1099-1143 | on such a run the locked part of the seed and contract tables is unchanged |
| Revisions.TokensOutliveUnboundChanges | scripts/event_experience.py:3862-3892 | a token issued earlier in a run is accepted exactly when the binding revision has not moved and the outline is still exact, and then stands for the same manifest |
| Revisions.InteractionKeepsTokens | scripts/event_experience.py:5327-5334 | answers, reviews and runtime claims never move the binding revision |
| Revisions.SeedManifestStands | scripts/event_experience.py:3461-3538 | a seed manifest, once built, is rebuilt identically until one of its seeds retires, and then fails as retired |
| Revisions.AskReplaysWhileSeedsLive | scripts/event_experience.py:4947-5074 | with any calls between the two halves of open_question, both times: a retry of a committed one replays its response exactly if none of its seeds had retired when it read them, and raises otherwise |
| Scenarios.ARetryRaises | scripts/event_experience.py:4947-4965 | a run from the empty state on which the retry raises: a seed is created, asked about and retired |
| Scenarios.RetryRaises | scripts/event_experience.py:4947-4965 | so it goes from any reachable state with any seed that can be asked about |
| AskedQuestions.QuestionsAreAboutStoredSeeds | scripts/event_experience.py:4947-5062 | in every state reached with manifests that were read from the seeds at any earlier point of the run: a question filed under h binds exactly the entries of the seed manifest with hash h; these name stored seed revisions, as they are stored, of one context, strictly in dependency order |
| AskedQuestions.OneQuestionPerSeeds | scripts/event_experience.py:5018-5049 | in such a state two questions about the same set of seed revisions are one question: a set is asked about once, in whatever order it is named |
| AskedQuestions.AskingExtends | scripts/event_experience.py:4947-5074 | calling open_question, with any calls between its halves, leads from such a run to such a run |
| AskedQuestions.ReadIsStored | scripts/event_experience.py:3461-3538 | a seed manifest lists live seeds of one context and outline binding as they are stored, strictly in dependency order, no seed twice |
| AskedQuestions.SeedManifestSucceeds | scripts/event_experience.py:3461-3538 | a seed manifest can be read exactly of distinct live seeds of one context and one outline binding |
| LedgerOps.ApplyKeeps | scripts/event_experience.py:1306-3362 | every operation keeps the joint seed/contract invariant and continues the history of both tables |
| LedgerOps.CreateSeedKeeps | scripts/event_experience.py:1321-1378 | creating a seed keeps both |
| LedgerOps.SupersedeSeedKeeps | scripts/event_experience.py:1457-1573 | superseding a seed keeps both |
| LedgerOps.RetireSeedKeeps | scripts/event_experience.py:3322-3350 | retiring a seed keeps both |
| LedgerOps.AdvanceSeedKeeps | scripts/event_experience.py:3228-3290 | advancing a seed keeps both |
| LedgerOps.ProposeContractKeeps | scripts/event_experience.py:2572-2656 | proposing a contract keeps both |
| LedgerOps.ProposeAndLockKeeps | scripts/event_experience.py:2685-2782 | proposing and locking at once keeps both |
| LedgerOps.LockContractKeeps | scripts/event_experience.py:2811-2887 | locking a contract keeps both |
| LedgerOps.SupersedeContractKeeps | scripts/event_experience.py:2921-3058 | superseding a contract keeps both |
| LedgerOps.RetireContractKeeps | scripts/event_experience.py:3086-3145 | retiring a contract keeps both |
| LedgerOps.CleanupKeeps | scripts/event_experience.py:5078-5188 | cleaning up a question's candidates keeps both |
| LedgerOps.IndexNeverRejects | scripts/event_experience.py:195-197 | on a reachable ledger a proposal is refused as existing only because of its id: the unique index on active contracts never fires |
| LedgerOps.IndexNeverRejectsSuccessor | scripts/event_experience.py:2989-3029 | the same for a superseding contract |
| LedgerOps.LockFindsItsSeed | scripts/event_experience.py:2837-2848 | on a reachable ledger locking a contract never misses its seed and never meets one that cannot be locked |
| LedgerOps.SupersedeFindsItsSeed | scripts/event_experience.py:2938-2942 | superseding a contract never misses its seed |
| LedgerOps.RetireFindsItsSeed | scripts/event_experience.py:3104-3108 | retiring a contract never misses its seed |
| LedgerOps.AdvanceFindsItsContract | scripts/event_experience.py:3245-3263 | advancing a seed never finds its contract binding invalid |
| LedgerOps.Frame | scripts/event_experience.py:1052-1155 | which tables each kind of operation may change and which counters it advances |
| EventLedger.RetireSeeds | scripts/event_experience.py:1529-1546 | retiring live seeds together with their active contracts keeps the invariant |
| EventLedger.AddSeed | scripts/event_experience.py:1547-1568 | inserting the next revision of a seed at a free place keeps the invariant |
| EventLedger.AddContract | scripts/event_experience.py:2618-2647 | inserting the next contract of a seeded seed keeps the invariant |
| EventLedger.LockStep | scripts/event_experience.py:2848-2882 | locking a proposed contract and binding its seed keeps the invariant |
| EventLedger.RetireContractStep | scripts/event_experience.py:3114-3137 | the unguarded reset of the seed only ever meets a seeded or locked seed, and keeps the invariant |
| Manifest.LockedManifestSucceeds | scripts/event_experience.py:3540-3724 | in a reachable ledger a locked manifest exists exactly when there is a reference, none occurs twice, every seed is locked-type and all agree; no defensive check fires |
| Manifest.ManifestIsAsStored | scripts/event_experience.py:3549-3724 | in a reachable ledger a locked manifest holds exactly one entry for each reference; it says of the seed what its row says, and of the one locked contract on it what that contract's row says, revision, hash and intent; the manifest's own context, outline and intent are those of every entry; it is stamped with its hash and the binding revision |
| Manifest.StrictlyOrdered | scripts/event_experience.py:3683-3690 | its entries are the referenced seeds, strictly increasing in dependency order, with distinct seed ids |
| Manifest.OrderIndependent | scripts/event_experience.py:3364-3410 | it does not depend on the order of the references |
| Manifest.SameLockedSameManifest | scripts/event_experience.py:3549-3724 | it reads nothing but locked-type seeds and the contracts they name |
| Manifest.UnboundSameLocked | scripts/event_experience.py:5310-5526 | a transaction that leaves the binding revision alone leaves that part of the tables alone |
| QuestionMachine.ApplyKeepsQuestions | scripts/event_experience.py:4947-5606 | every operation keeps the questions' invariant and what is fixed about each question |
| QuestionMachine.SelectsOffered | scripts/event_experience.py:5210-5236 | a selection is an offered option, under any casefold |
| QuestionMachine.NamedIdIsSelected | scripts/event_experience.py:5215-5224 | short of a delegation phrase, naming an offered id, up to casefold, selects that option |
| QuestionMachine.LetterOrLabelIsSelected | scripts/event_experience.py:5225-5236 | an answer that names no id selects by letter if it is one in range, else the one option whose label alone reads so, and nothing if there is none such |
| QuestionMachine.CancelNeverSelects | scripts/event_experience.py:5386-5436 | an answer spelled as a cancellation closes an open question and never selects, whatever ids are offered |
| QuestionMachine.DelegationSelectsRecommended | scripts/event_experience.py:5215-5224 | a delegation selects the recommended option, under any casefold |
| Answers.PicksDecide | scripts/event_experience.py:5210-5236 | the option selected is the one the answer picks: the recommended one for a delegation; else by id, else by letter, A to E in either case for the first to the fifth, else by the one label that reads so; none exactly if it picks none |
| Answers.AnswerDecides | scripts/event_experience.py:5294-5526 | what an answer does in a reachable state, case by case: an open question is closed and cleaned up, or stores and answers the option picked, or counts the first invalid answer and asks again, or blocks from the second on; an answered one stays as it is or refuses another option; no other row changes |
| QuestionMachine.AnswerCleansUp | scripts/event_experience.py:5327-5436 | an answer that cancels or expires a question changes only its status among the questions, leaves no bound seed seeded, retires their proposed contracts and the proposed arcs over them, under the reason of the case, changes no other row, and answers the closed question and the numbers of rows newly retired |
| Runs.AnswerCleansUpInARun | scripts/event_experience.py:5327-5436 | the same in every state with the invariant, hence every reachable one |
| QuestionMachine.RetireExpiredCleansUp | scripts/event_experience.py:5555-5606 | the same for expiring any number of questions at once, whatever seeds they share: a question is closed exactly if it is open and its time is up, the others stay as they are, exactly the closed ones are listed, and the totals count each row once |
| Runs.RetireExpiredCleansUpInARun | scripts/event_experience.py:5555-5606 | the same in every reachable state |
| QuestionMachine.RepeatedAnswers | scripts/event_experience.py:5362-5385 | an answered question always finds its option; a repeated answer is refused exactly when it selects another one, and otherwise changes nothing |
| CleanupSteps.CleanupTwice | scripts/event_experience.py:5581-5599 | cleaning up question after question equals cleaning up all at once, rows and summed counts |
| ArcLedger.ApplyKeepsArcs | scripts/event_experience.py:1806-2216 | every operation keeps arcs well-formed: revisions 1..n, all but the last retired, bindings in the order of the seed ids, payloads fixed |
| ArcLedger.OnlyStaleBindings | scripts/event_experience.py:1745-1804 | the binding check of a stored arc fails exactly when a bound seed is gone, retired, changed or of another chain; never because of the list itself |
| ArcLedger.ApplyKeepsBindings | scripts/event_experience.py:1683-1743 | every operation keeps that an arc's bindings name stored seed revisions under their hashes, in the arc's own context |
| ArcLedger.BindsLiveSeeds | scripts/event_experience.py:1683-1743 | seeds are bound exactly when each has a live revision in the arc's context, and to that one |
| ArcLedger.CreateArcStaysUnique | scripts/event_experience.py:1824-1848 | create_arc keeps one active arc per context |
| ArcLedger.OthersStayUnique | scripts/event_experience.py:1806-2216 | so does every operation but supersede_arc |
| ArcLedger.ArcsStayUnique | scripts/event_experience.py:2059-2111 | supersede_arc keeps it exactly when no other arc is active in the context it moves to |
| Runs.ArcsUniqueUnlessMoved | scripts/event_experience.py:2059-2111 | on a run from the empty state it holds in every state exactly when no supersede_arc of the run moved into a taken context |
| Scenarios.TwoActiveArcs | scripts/event_experience.py:2059-2111 | a run from the empty state, two seeds and an arc over each, whose last call leaves two active arcs in one context |
| Scenarios.AFirstContractSupersedesAnything | scripts/event_experience.py:2424-2431 | for any id, a run from the empty state that stores a first contract as superseding it |
| Scenarios.ProposedSupersessionStays | scripts/event_experience.py:2572-2656 | a committed propose_contract stores the supersession it was given, for good: none exactly if none was given, and only then does the contract name its predecessor |
| Scenarios.LockedAtOnceSupersedesNothing | scripts/event_experience.py:2722-2756 | a committed propose_and_lock_contract stores none, for good |
| Scenarios.SupersessionsNamePredecessors | scripts/event_experience.py:2934-3030 | in every reachable state a contract names its predecessor exactly unless it is a first one stored with a supersession |
| ReviewLedger.RecordReviewGoes | scripts/event_experience.py:4520-4682 | recording a review keeps reviews grounded in a contract that was locked, superseding in line and at most once, and changes no other review but the superseded one's status |
| ReviewLedger.ApplyKeepsReviews | scripts/event_experience.py:4520-4798 | every operation keeps that |
| ReviewLedger.ApplyKeepsObserved | scripts/event_experience.py:4160-4302 | every operation keeps observed reviews superseding in line, of one source, at most once |
| Runs.ReviewsAreImmutable | scripts/event_experience.py:4630-4660 | on any run a review keeps its payload and hash, and once no longer recorded its whole row |
| Runs.ObservedReviewsAreImmutable | scripts/event_experience.py:4225-4286 | the same for observed reviews |
| Effects.RetiredReviewsStay | scripts/event_experience.py:4744-4797 | only a recorded review is retired, and then its row never changes again |
| Effects.RecordReviewEffect | scripts/event_experience.py:4520-4682 | a review is recorded exactly under a new id, of a contract that was locked, retired since or not, under its hash and artifact revision, and either first or next to a recorded review of the same evidence; only that one's status changes |
| Effects.RecordObservedEffect | scripts/event_experience.py:4160-4302 | an observed review is recorded exactly under a new id, of a source accepted as the review says, and either first or next to a recorded review of the same source; only that one's status changes |
| ReviewEvidence.ReviewEvidenceAccepted | scripts/event_experience.py:4369-4434 | the evidence of a review is accepted exactly when every quote is a bounded, non-empty exact slice, in equal numbers, and the text has a UTF-8 form whose hash is the given one |
| ReviewEvidence.ObservedEvidenceAccepted | scripts/event_experience.py:3962-4048 | observed reviews accept the same evidence, though they check it in another order |
| Effects.CreateSeedEffect | scripts/event_experience.py:1320-1378 | in a reachable state a seed is created exactly when its id was never used, in any revision, and its place is free; one fresh row is new |
| Effects.SupersedeSeedEffect | scripts/event_experience.py:1456-1573 | a live seed is superseded exactly by a replacement that fits it; its revision and its active contracts are retired, the next revision is fresh, all other rows stay |
| Effects.OnlyLiveSeedsAreSuperseded | scripts/event_experience.py:1458-1477 | without a live revision there is nothing to supersede |
| Effects.AdvanceSeedEffect | scripts/event_experience.py:3228-3290 | a seed advances exactly from locked to expanded or from expanded to generated, under the hash of its one locked contract; only its status changes |
| Effects.RetireSeedEffect | scripts/event_experience.py:3322-3350 | exactly live seeds retire; exactly their active contracts retire with them, for the same reason |
| Effects.ProposeContractEffect | scripts/event_experience.py:2571-2656 | a contract is proposed exactly as the first ever of a live seed whose five claimed fields it agrees with, under a new id; its row holds the context and details of the seed and all else as it was given |
| Effects.ProposeAndLockEffect | scripts/event_experience.py:2684-2782 | it is locked at once exactly if also its provenance is complete; its seed is then bound to it |
| Effects.LockContractEffect | scripts/event_experience.py:2810-2887 | a proposed contract is locked exactly under its hash and with complete provenance: no check on the seed can fail |
| Effects.RetireContractEffect | scripts/event_experience.py:3085-3145 | an active contract is retired exactly while its seed is not expanded; the seed is unbound and its revision closed: it never gets another contract |
| Effects.SupersedeContractEffect | scripts/event_experience.py:2920-3058 | an active contract is superseded exactly while its seed is not expanded, by a contract that agrees with that seed, has a new id and the next revision if any, names it or nothing, and has complete provenance if it is locked; it retires, the whole row of the new contract is fixed, the seed is bound to it or released, all other rows stay |
| Effects.CreateArcEffect | scripts/event_experience.py:1821-1882 | an arc is created exactly when its id was never used, its seeds are live in its context and no arc is active there |
| Effects.LockArcEffect | scripts/event_experience.py:1943-1986 | a proposed arc is locked exactly under its hash and while none of its seeds has retired: nothing else about a binding can have changed |
| Effects.SupersedeArcEffect | scripts/event_experience.py:2018-2122 | an active arc is superseded exactly by a replacement on its chain over live seeds of the replacement's context |
| Effects.RetireArcEffect | scripts/event_experience.py:2152-2204 | exactly active arcs are retired: the latest-revision check never refuses one |
| Effects.OpenQuestionEffect | scripts/event_experience.py:4980-5062 | a question is opened exactly when all its seeds are seeded without an active contract and their manifest never had one; its row is new, open, about exactly those seeds, and holds the text, options and rationale given |
| EventService.EventExperienceService.constructor | scripts/event_experience.py:773-837 | a fresh service is empty at revisions zero |
| EventService.EventExperienceService.Execute | scripts/event_experience.py:1052-1155 | any call leaves the state and the result of Step, nothing at all on error, and keeps the invariant and history |
| EventService.EventExperienceService.ExecuteAll | scripts/event_experience.py:1052-1155 | a sequence of calls leaves the state of Run |
| EventService.EventExperienceService.Mutate | scripts/event_experience.py:1052-1155 | lookup, compare-and-swap, transaction with rollback, counters, log entry: the state and result of Step |
| EventService.EventExperienceService.Transact | scripts/event_experience.py:761-771 | the tables are restored after an error, even when rows were already changed |
| EventService.EventExperienceService.Answer | scripts/event_experience.py:5238-5536 | the transaction of its own that answers a question: the state and result of Step |
| EventService.EventExperienceService.AskQuestion | scripts/event_experience.py:4931-5074 | open_question as two halves: the seeds are read, any other calls come in between, and only the transaction looks up the key |
| EventService.EventExperienceService.RetireQuestionCandidates | scripts/event_experience.py:5078-5188 | the loops over bindings and arcs retire and count exactly what one simultaneous cleanup would |
| EventService.EventExperienceService.RetireArcsOver | scripts/event_experience.py:5149-5183 | the loop over proposed arcs retires and counts exactly those that mention a retired seed |
| EventService.EventExperienceService.DoRetireExpired | scripts/event_experience.py:5555-5606 | the loop over expired questions totals exactly what one simultaneous cleanup would count |
| EventService.EventExperienceService.DoSupersedeContract | scripts/event_experience.py:2920-3058 | retire, insert, rebind or release the seed; an insertion refused after the retirement is an error like any other |
| EventService.EventExperienceService.DoRecordReview | scripts/event_experience.py:4520-4682 | a review of a contract that was locked; it supersedes at most a recorded one of the same evidence; an insertion refused after the supersession is an error |
| EventService.EventExperienceService.DoRecordObserved | scripts/event_experience.py:4160-4302 | an observed review of a source that is still as accepted, superseding at most a recorded one of the same source |
| EventService.EventExperienceService.BindArcSeedsLoop | scripts/event_experience.py:1683-1743 | the bindings, or the first failure, in the order of the seed ids |
| EventService.EventExperienceService.LatestRevision | scripts/event_experience.py:1458-1466 | the highest revision of an id, if there is one |
| EventService.EventExperienceService.CheckArcBindings | scripts/event_experience.py:1745-1804 | the first binding that no longer holds |
| EventService.EventExperienceService.CheckQuestionBindings | scripts/event_experience.py:4984-5018 | the first bound seed that moved on or already has a contract |
| EventService.EventExperienceService.BuildLockedManifest | scripts/event_experience.py:3540-3737 | the locked manifest, or the first failure |
| EventService.EventExperienceService.BuildSeedManifest | scripts/event_experience.py:3461-3538 | the seed manifest, or the first failure |
| CanonicalJson.NormalizeIsNormal | scripts/event_experience.py:427-467 | a normalised value has no carriage return, surrogate, non-finite number or repeated key |
| CanonicalJson.NormalIsFixed | scripts/event_experience.py:427-467 | a normal value normalises to itself |
| CanonicalJson.NormalizeIdempotent | scripts/event_experience.py:427-467 | normalisation is idempotent |
| CanonicalJson.NormalizeDecides | scripts/event_experience.py:427-467 | normalisation answers exactly the value of the same shape whose texts have one line feed for every line break and whose keys are distinct strings; it fails exactly if there is none |
| CanonicalJson.TwoReplacementsAreOnePass | scripts/event_experience.py:418-419 | replacing CR LF and then CR is one pass over the line breaks |
| CanonicalPrinter.ValuesDecode | scripts/event_experience.py:470-479 | printed values are uniquely decodable, with string escapes, inside any larger text |
| CanonicalPrinter.SortKeysDecidesSame | scripts/event_experience.py:470-479 | sorting keys at every level forgets the insertion order and nothing else |
| CanonicalPrinter.CanonicalTextDecidesMeaning | scripts/event_experience.py:470-479 | two values have one canonical text exactly when they normalise to the same value |
| CanonicalPrinter.HashedDecides | scripts/event_experience.py:503-512 | what is hashed is the normalised value less exactly the excluded members; only an object can have any excluded |
| CanonicalReader.CanonicalTextIsRead | scripts/event_experience.py:470-479 | an independent reader of JSON without whitespace reads a canonical text back as the normalised value, insertion order aside, with the keys of every object ascending by code point |
| CanonicalReader.ValueIsRead | scripts/event_experience.py:470-479 | whatever follows it, a printed value is read back and the rest is left |
| CanonicalReader.TextLessDecides | scripts/event_experience.py:476-476 | keys are compared at their first difference, by code point, a prefix first |
| CanonicalReader.EscapesOnlyWhatItMust | scripts/event_experience.py:474-474 | only quotes, backslashes and controls below 0x20 are escaped, by the short escape if there is one |
| CanonicalPrinter.HashBindsValue | scripts/event_experience.py:496-515 | two payloads carry one control hash exactly when what is hashed, after exclusions, is one value |
| SessionClose.NoBlockIsLost | hooks/plot_progression_gate.py:2303-2439 | under every interleaving and crash, a recorded block is on disk, or a pass that read after it was recorded found its branch clear |
| SessionClose.LateMarkersSurvive | hooks/plot_progression_gate.py:2415-2439 | a marker created since the pass read is still there and not among those it will unlink |
| SessionClose.PassLeavesLateMarkers | hooks/plot_progression_gate.py:2415-2439 | until the lock is taken again, no marker the pass did not read disappears |
| SessionClose.OnlyUnlinkRemoves | hooks/plot_progression_gate.py:2415-2430 | only unlinking removes a marker, and only one the pass had read |
| SessionClose.NextKeeps | hooks/plot_progression_gate.py:2482-2695 | each read, check, write, unlink, removal, marking or crash keeps the protocol's invariant |
| SessionClose.MarkerFailsIfRemoved | hooks/plot_progression_gate.py:2374-2411 | a writer about to write its next marker fails exactly when a pass removed the directory since the writer made it and no other writer made it again |
| SessionClose.TempHoldsTheDirectory | hooks/plot_progression_gate.py:2385-2411 | once its temporary file is there, the directory stays and nothing but the writer's own death keeps the marker from being made |
| SessionClose.ALockFailureLeavesNoMarker | hooks/plot_progression_gate.py:2415-2429 | a run on which a lock failure leaves no marker |
| SessionClose.BlankSessionsFailTheRead | hooks/plot_progression_gate.py:2271-2299 | the markers that writers made are read exactly when none of their session ids is blank: none ever lacks a branch; a pass that meets a blank one ends there and changes nothing |
| SessionClose.ABlankMarkerStays | hooks/plot_progression_gate.py:2271-2299 | once such a marker is there and no pass is past its read, it stays whatever happens, no check is made and no entry changes |
| SessionClose.ABlankSessionBlocks | hooks/plot_progression_gate.py:2699-2727 | for any blank session id a run on which a lock failure leaves such a marker, and any continuation of it |
| SessionCloseFiles.SessionCloseDirectory.WriteMarkers | hooks/plot_progression_gate.py:2367-2412 | whatever others do meanwhile: the directory once, then temporary file and rename per branch, a blank one standing for "main"; it stops early only if the directory was removed since, and not made again |
| SessionCloseFiles.CloseBranches | hooks/plot_progression_gate.py:2442-2479 | the branches named by the payload, first, and by the session's turns, less the spaces around them, each once; "main" exactly if none is named |
| SessionCloseFiles.SessionCloseDirectory.ConsumeMarkers | hooks/plot_progression_gate.py:2415-2430 | whatever writers do meanwhile: every marker read is gone, those made since are there, and the directory is removed if it is empty then |
| SessionCloseFiles.SessionCloseDirectory.Commit | hooks/plot_progression_gate.py:2432-2439 | the entries are replaced before any marker goes |
| SessionCloseFiles.SessionCloseDirectory.ReadState | hooks/plot_progression_gate.py:2303-2322 | entries overridden by markers of the same key, and the marker paths read; it fails exactly when a marker's session id is blank, and then nothing is lost |
| SessionCloseFiles.SessionCloseDirectory.RefreshEntries | hooks/plot_progression_gate.py:2482-2547 | whatever writers do between its steps: if the markers can be read, what is pending afterwards is exactly what was, by entry or by marker read, and is not clear; of the markers exactly the ones made since the read are left; otherwise entries and markers are as they were read |
| SessionCloseFiles.SessionCloseDirectory.EndSession | hooks/plot_progression_gate.py:2577-2695 | whatever writers do between its steps: if the markers can be read, the session's branches are pending exactly if not clear, every other key exactly as it was, by entry or by marker read; of the markers exactly the ones made since the read are left; otherwise entries and markers are as they were read |
| ReviewQuotes.ExperienceReviewQuotes | hooks/plot_progression_gate.py:3190-3220 | the quotes and offsets of the windows around the first, middle and last run, repeats left out; all loops end |
| ReviewQuotes.QuotesAreSlices | hooks/plot_progression_gate.py:3190-3220 | at most three distinct quotes, each the exact slice of its offset, non-empty, at most 160 characters; every candidate character is in a quoted window |
| QuoteWindows.CandidatesDecide | hooks/plot_progression_gate.py:3194-3202 | the candidates begin the run with none before it, the one with half of all before it, and the one with all others before it |
| QuoteWindows.WindowDecides | hooks/plot_progression_gate.py:3206-3216 | a window begins at the first character that is no space from 40 before its candidate on, is cut just past the first place of the foremost ender that occurs from the candidate on within 160 characters of its beginning, or there, and loses the spaces before the cut |
| QuoteWindows.QuotesInOrder | hooks/plot_progression_gate.py:3206-3220 | the windows are cited in the order of their candidates |
| ReviewQuotes.QuotesPassTheEvidenceChecks | hooks/plot_progression_gate.py:3190-3220 | for every text and hash: the quotes pass the evidence checks exactly when the text has no isolated surrogate and that hash, is not blank, and around its first, middle and last run every window that reads unlike the earlier ones ends within the integer range |
| ReviewQuotes.LastWindowSuffices | hooks/plot_progression_gate.py:3190-3220 | for an encodable text that is not blank it is enough that the window around the last run does |
| ReviewQuotes.OrdinaryTextsPass | hooks/plot_progression_gate.py:3190-3220 | every text of at most 2147483647 characters without an isolated surrogate that is not blank passes |
| ReviewQuotes.AnOverlongTextFails | scripts/event_experience.py:4397-4398 | a text whose quote is refused for its offset |
| ReviewQuotes.ASurrogateFails | scripts/event_experience.py:4419-4421 | a text quoted whole and in range whose evidence is refused, because it cannot be encoded |
| ReviewQuotes.WindowEndsInOrder | hooks/plot_progression_gate.py:3203-3216 | a later candidate's window ends no earlier |
| ProfileChain.BuildProfileEventChain | benchmarks/advantage_profile_fixtures.py:369-872 | the counter and the appends produce the specified chain, or fail for want of a planned kind |
| ProfileChain.ChainIsSound | benchmarks/advantage_profile_fixtures.py:369-872 | for every validated case and both flags: a chain exists exactly when some module kind is neither primary nor upgrade; ordinals are 1..n, ids distinct, and every anchor, module, cause or misread knowledge was introduced earlier |
| ProfileContents.ChainTells | benchmarks/advantage_profile_fixtures.py:369-872 | the chain event by event: exactly the primary anchor is owned, exactly the last kind that is neither primary nor upgrade is planned, exactly the primary module is available, it is used and fails because of that use, the upgrade module alone is unlocked, of seven pieces of knowledge the fourth misreads the first, and branch and dimensions follow the flags |
| ProfileChain.ThreeKindsSuffice | benchmarks/advantage_profile_fixtures.py:454-462 | three distinct module kinds are enough for a chain |
| ProfileChain.PlannedKindExists | benchmarks/advantage_profile_fixtures.py:454-462 | the planned kind is found exactly when there is one, and is neither primary nor upgrade |
| ProfileChain.ChainBuilder.Add | benchmarks/advantage_profile_fixtures.py:386-401 | one more event, numbered by the counter |
| ProfileChain.ChoicesAreListed | benchmarks/advantage_profile_fixtures.py:128-142 | a validated choice has the id of one of the case's own list, even where whitespace pads either |
| StableIds.StripKeepsStableId | benchmarks/advantage_profile_fixtures.py:39-41 | outer whitespace does not change a slug, whatever the casefold |
| StableIds.SlugIsItsWords | benchmarks/advantage_profile_fixtures.py:39-41 | a slug is the runs of letters and digits of the folded text joined by dashes, or a default if there are none |
| StableIds.StripDecides | benchmarks/advantage_profile_fixtures.py:60-60 | stripping leaves exactly what is left when the spaces around a text are taken away |
| StableIds.EventIdsDiffer | benchmarks/advantage_profile_fixtures.py:313-313 | events with different numbers have different ids |
| StableIds.EventIdEndsInItsNumber | benchmarks/advantage_profile_fixtures.py:313-313 | an event id ends in its number, in at least three digits and no more than it takes |
| NearestRank.SamePosition | benchmarks/v15_live_e2e.py:294-299 | both implementations pick the same sorted position |
| NearestRank.NearestRankSplits | benchmarks/v15_performance.py:1196-1198 | the picked sample has at least p * n samples at most itself exactly when p is at most 1, and fewer than p * n below it exactly when p is positive |
| NearestRank.NearestRankIsTheOnlyOne | benchmarks/v15_performance.py:1196-1198 | for fractions in (0, 1] it is the only sample with both bounds |
| NearestRank.NearestRankIsMonotone | benchmarks/v15_performance.py:1196-1198 | a larger fraction never picks a smaller value |
| NearestRank.DistributionIsOrdered | benchmarks/v15_performance.py:1191-1207 | however the samples are rounded, as long as no order is reversed: min, p50, p95 and max are in order, min and max are the least and the greatest sample, the samples are the rounded values, sorted, and both reports give p50 and p95 of the same sample, one rounded before sorting, the other after picking |

## Left out

- SQLite itself: connections, locking, PRAGMAs, schema creation and migration. A transaction is atomic; concurrent clients are the interleaving of whole calls.
- SHA-256 internals, ISO timestamps, `created_at` and `updated_at`. Digests of a model row are of the row itself; the byte form they stand for is the subject of `CanonicalPrinter`.
- Length and type validators of single fields, and payload fields no operation reads: they travel as one text. An id that a caller omits is taken as given: the source derives it from the rest of the payload, for seeds, arcs and reviews before the transaction, for contracts inside it, from the fields copied from the seed too.
- Float formatting: a finite float is its shortest literal, of which only the shape is used.
- The check that an accepted outline is still exact, and the continuity tables behind observed reviews: a predicate and an argument.
- DoRetireExpired: does not list the expired manifests in hash order; the response holds them as a set.
- FreshCallRefused: says that what is reported is so; when several things are wrong at once it does not say which is reported. The methods of `EventService`, proved to follow `EventSpec`, make the checks in the source's order.
- RetriesReplay: speaks of retries with valid arguments; invalid arguments are refused before the log is read, as in the source.
- Isolated surrogates are modelled in hash payloads and in texts under review; all other texts are sequences of Unicode scalar values.
- DelegationInARun: the folding used inside `Step` folds ASCII letters only; the lemmas on selection that it rests on hold under any folding.
- Listing and reading operations (`get_seed`, `list_reviews` and the like), and `record_observed_review`'s lookup of the source artifact.
- The session-close lock itself, timeouts, and files that cannot be read or parsed: a pass that meets one ends as a crashed pass does. Marker paths and writers are taken to be never reused, and listing the markers and reading them is one step.
- BuildProfileEventChain: does not carry texts, costs, effects and other fields that no later event refers to.
- ChainIsSound: assumes that whitespace does not fold to letters or digits.
- NearestRankSplits: samples are reals; the bounds are about the samples as they are sorted, rounded or not.
- Benchmark runners, prompt assembly, hook classification, worker processes and command lines.
