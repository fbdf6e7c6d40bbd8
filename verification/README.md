# LedgerFlow verification model

LedgerFlow turns payment events into accepted history, per-transaction payment state, a double-entry ledger
and a settlement comparison. The same money logic exists twice: as a transactional store in Python and as an
incremental Spark pipeline. Two concurrent protocols feed and gate it: the identity gate that publishes
accepted events, and the settlement revision protocol. A synthetic generator produces its input. This
project models all of these in Dafny and proves what they keep.

| part | modules | what is proved |
|---|---|---|
| contract gate | `Contracts`, `ContractLaws` | the contract and every reason for refusal are exact; which raw events share an identity; what opens an envelope; card data and redaction place by place |
| posting rules | `Ledger`, `RuleLaws`, `Numerals` | rule loading and its round trip, balance checking, entry ids |
| lifecycle kernel | `Lifecycle`, `LifecycleLaws`, `History`, `Projection` | thirteen ordered checks against a grammar of histories and against what single events show; the rebuild as a pure function |
| ledger store | `Intake`, `Runs`, `Settlement`, `Store` | ingest, rebuild, commit and rollback, reconciliation, as methods on tables |
| laws over runs | `RunLaws`, `OrderLaws`, `Redelivery`, `QuarantineLaws`, `JournalLaws`, `SettlementLaws`, `MoneyLaws` | confluence, exactly when arrival order shows, what quarantine and journal say, redelivery and replay, settlement evidence among runs, conservation of records, events and money |
| Spark pipeline | `Reconstruction`, `Pipeline`, `LakeJobs`, `PipelineLaws`, `MergeLaws`, `FinanceView`, `DailyViews`, `DateRuns`, `RunPostings` | the window form equals the kernel; every row is traced to the merge that wrote it; merges refine the rebuild; exactly what the finance views show |
| settlement revisions | `Revisions`, `RevisionLaws`, `RevisionOutcomes`, `LoaderOutcomes`, `RevisionHandler` | publication safety over every interleaving; what a failed workflow has committed; what each loader's answer says |
| identity publication | `Publication`, `PublicationLaws`, `PublicationHandler` | reserve / put / mark over every interleaving; the batch handler, and exactly which raw evidence it keeps |
| faults | `FaultLaws` | lost replies have the full effect of their calls; a crash or a failing stage changes nothing but its own actor |
| both halves | `Agreement` | published, carried-through events are shown as the store projects them |
| generator | `Simulator`, `SimulatorLaws`, `SimulatorOutcome` | generated arrivals in the store, end to end |
| shared | `Wrappers`, `Sums`, `Ordering` | results, finite sums, ORDER BY over unique keys |

`dafny verify dfyconfig.toml` checks everything.

## How the model is built

- A table is a field of type `map` or `seq`; SQL selects, window aggregates and dictionary comprehensions are
  functions; every loop and every statement that changes a table is a method. `Store.LedgerStore` has one
  field per table, inserts that report a violated key, and a `Process` that takes a snapshot and restores it.
  Its methods are tied to the functions in `Intake`, `Projection` and `Runs`, and the laws are about those.
- The concurrent protocols are step functions over a world. A step is one atomic service call. An action
  sequence may interleave any number of actors, crash them anywhere, lose a reply after the effect took place,
  retry and redeliver. Every law about them quantifies over all action sequences. The handlers themselves are
  methods proved to perform exactly one actor's uninterrupted (or interrupted) actions.
- The pipeline's steps are single merges, so a crash between two merges, a repeated job or overlapping dates
  are all just step sequences. An ingest may deliver events of any converted dates. The field `unmerged` of
  `Pipeline.Lake` and the field `log` of `Revisions.World` are bookkeeping for stating properties; no step
  depends on them.
- A run of the store may die inside its transaction or between its commit and the journal's last update.

Assumptions, stated once:

- SHA-256 over the canonical identity is injective: a fingerprint is the identity record itself.
- Texts hold no lone surrogates. `json.loads` admits them, and `tokenize_customer` then raises an encoding error that
  is no contract error (`src/ledgerflow/contracts.py:191`): a store run over such an e-mail fails, and the identity
  gate reports the record.
- Integers are unbounded. SQLite's and Spark's 64-bit limits are not modelled.
- Case folding, e-mail normalisation, the keyed hash, timestamp reading (`Contracts.Gate`), the calendar
  (`Simulator.Clock`), the shuffle and, in the pipeline, the date of an event are parameters. Nothing is
  assumed of them except where a lemma's `requires` says so.
- Registry and rules do not change between runs. A Spark `MERGE` is atomic.
- Set iteration in `sorted(expected.keys() | actual_rows.keys())` is modelled without its order
  (`Store.LedgerStore.CompareAll`), which the result does not depend on.

Where the code and its documentation disagree, the code was followed:

- `docs/invariants.md:25` says that arrival order cannot change the projection. The code accepts the first of
  several rival claims on an event id, and the others are lost. `SimulatorOutcome.ConflictOrderMatters` gives two
  records whose order changes the tables. `OrderLaws.OrderIrrelevantExactly` gives the condition under which order
  never shows in any table, for every collection of raw events and both ways: whichever claims are picked,
  replacing one by a rival keeps the transaction and the verdict on it, and the visible columns where that
  verdict is acceptance. Rivals that differ in source or customer only, for example, never show
  (`RunLaws.Confluence`), although the accepted history then depends on order
  (`RunLaws.HistoryOrderIrrelevantExactly`).
- The finance views are not a full rebuild, for two reasons. Exception rows are never deleted, so a transaction
  once found invalid stays hidden after a completed run has brought its missing event
  (`DateRuns.FilledGapStaysHidden`). And an event is filed under the date in its text
  (`lambdas/schema_identity_gate/handler.py:57`), which keeps the sender's offset, while the jobs select
  transactions by the converted date (`spark_jobs/reconstruct_payment_state.py:199`); a run then ingests an event
  that its own merges do not touch (`DateRuns.MisdatedAuthorizationIsMissing`).
  `DateRuns.CompletedRunsRefineRebuild` says exactly which transactions are shown as a full rebuild would show
  them, and `DateRuns.CoveredRunsRefineRebuild` that it suffices that the converted date of every newly delivered
  event is that of its own or a later completed run.
- `settlement_workflow.asl.json:148-152` says of a failed workflow that no authoritative status was committed.
  If the reply to the publishing update is lost, the workflow fails although the status was committed:
  `RevisionOutcomes.FailedWorkflowHasPublished` is such a run, and
  `RevisionOutcomes.FailedYetReconciledExactly` says when it happens, both ways.
- The generator's promise that a run over its arrivals is clean holds exactly when every source it used is a
  known payment source: it selects sources by mode only. `SimulatorOutcome.GeneratorEndToEnd` states this as an
  if-and-only-if. The shipped registry meets the condition.
- `README.md:29` and `docs/security.md:5` say that card fields are rejected recursively before raw persistence. The
  identity gate checks the business payload only and then writes the whole raw object
  (`lambdas/schema_identity_gate/handler.py:115-119`), so an envelope with clean `data` takes card data in its
  `metadata`, or beside it, into the evidence: `PublicationHandler.EnvelopeKeepsCardNumber` is such a record.
  `PublicationHandler.KeptCardDataExactly` says for which records this happens and
  `PublicationHandler.BatchEvidenceCleanExactly` when a batch leaves the evidence clean, both ways.
- Raw evidence is keyed by day and record id, and a record without an id is called "unknown"
  (`lambdas/schema_identity_gate/handler.py:108`), so one such record replaces the evidence of another
  (`PublicationHandler.UnknownRecordsOverwrite`). `PublicationHandler.EvidenceSurvivesExactly` says when a record's own
  object is what its key holds after the batch. An envelope that cannot be opened leaves no raw evidence at all, and one
  whose `operation` is a list or an object raises a type error, so that its record is reported rather than quarantined.

## Model

| member | source | states |
|---|---|---|
| Contracts.ContractIsExact | src/ledgerflow/contracts.py:254-308 | the gate turns a payload into an event if and only if the payload meets the whole contract, field by field, for that event |
| Contracts.IdentityDeterminesEvent | src/ledgerflow/contracts.py:186-200 | a validated event can be read back from its identity alone, delivery time aside, customer token included |
| Contracts.EqualIdentityEqualEvent | src/ledgerflow/contracts.py:48-61 | two valid raw events with one identity become the same event except for `received_at` |
| Contracts.ProhibitedSplits | src/ledgerflow/contracts.py:219-251 | the card fields found in an envelope are those found in its data and those found outside of it |
| Contracts.RedactionIsExact | src/ledgerflow/contracts.py:203-216 | a redacted value shows no sensitive field at any depth, and redaction leaves a value alone if and only if it showed none |
| ContractLaws.FingerprintIsExact | src/ledgerflow/contracts.py:194-200 | two raw events share an identity if and only if all eleven business fields, written out by name, agree in both or are absent from both, and the e-mails agree up to normalisation |
| ContractLaws.RedeliveryKeepsIdentity | src/ledgerflow/contracts.py:48-61 | any other delivery time leaves the identity as it is |
| ContractLaws.FieldSetsFit | src/ledgerflow/contracts.py:17-61 | the identity covers everything admitted but the delivery time, no admitted field is card data, and redaction covers card data and the e-mail |
| ContractLaws.ExtractionIsExact | src/ledgerflow/contracts.py:239-251 | which payload an object opens as, which of three reasons refuses it and when a type error is raised, each if and only if its own fields say so |
| ContractLaws.ProhibitedIsExact | src/ledgerflow/contracts.py:219-236 | a card field is found if and only if it occurs at the end of some path through objects and lists |
| ContractLaws.RedactionPlaceByPlace | src/ledgerflow/contracts.py:203-216 | off the sensitive fields every place keeps its keys, length or value, a sensitive field shows the mark, and no place is added |
| ContractLaws.IdentifierIsExact | src/ledgerflow/contracts.py:30 | an identifier is one to 128 characters whose code points are those of digits, ASCII letters, hyphen, full stop, colon or underscore |
| ContractLaws.RefusalIsExact | src/ledgerflow/contracts.py:254-308 | a payload is refused for a reason if and only if that is the complaint about the first of twenty-one ordered demands that it does not meet, and accepted if and only if it meets all |
| Ledger.ParseRule | src/ledgerflow/ledger.py:48-56 | a rule is parsed if and only if all its lines are well formed, line by line in order; otherwise the error is that of the first malformed line |
| Ledger.LoadPostingRules | src/ledgerflow/ledger.py:36-60 | a rule document is accepted if and only if unit, version and all four rules are well formed and every rule's multipliers cancel; the loaded rules are the document's, and every error is true of the document |
| Ledger.AssertBalanced | src/ledgerflow/ledger.py:82-89 | the dictionary loop passes if and only if every (event, currency) group sums to zero |
| Ledger.BuildPostings | src/ledgerflow/ledger.py:63-79 | posting fails only for a missing rule or money that does not cancel, never under rules that were loaded |
| Ledger.EntryIdInjective | src/ledgerflow/ledger.py:66 | entry ids never collide, although event ids may contain colons and digits |
| Ledger.LinesOfSum | src/ledgerflow/ledger.py:64-78 | an event's lines sum to its amount times its rule's multipliers, and balance as groups exactly if that is zero |
| Ledger.ConfiguredRulesBalance | config/posting_rules.json:4-18 | every configured rule cancels |
| RuleLaws.DocumentIsExact | src/ledgerflow/ledger.py:38-59 | acceptability in terms of the document's own fields, rule by rule and line by line |
| RuleLaws.DocumentRoundTrip | src/ledgerflow/ledger.py:36-60 | every balanced rule set with named accounts and a positive version is loaded back from its document unchanged |
| RuleLaws.LinesAreExact | src/ledgerflow/ledger.py:64-77 | the k-th line of an event puts the k-th multiple of its amount on the k-th account, under the event's own ids, party and currency and the rules' version |
| Lifecycle.VersionsAreExactlyOneToN | src/ledgerflow/store.py:330-333 | n distinct versions with minimum 1 and maximum n are exactly 1..n in order (pigeonhole) |
| Lifecycle.AcceptanceIsShape | src/ledgerflow/store.py:316-361 | a history passes the thirteen checks if and only if it follows the grammar: versions 1..n, one party, authorization first and only once, then a capture, totals within bounds |
| Lifecycle.PrefixesStayAuthorized | src/ledgerflow/store.py:323-361 | no prefix of an accepted history in version order has captured more than was authorized |
| LifecycleLaws.VerdictIsFirstShown | src/ledgerflow/store.py:323-361 | a history is rejected for a reason if and only if that is the first of thirteen things its single events show, and accepted if and only if they show none |
| LifecycleLaws.StateIsExact | src/ledgerflow/store.py:400-426 | an accepted history's state: the id and version of its latest event, everyone's party, the amount of its only authorization, its totals, and the status that these call for |
| LifecycleLaws.StatusIsExact | src/ledgerflow/store.py:401-410 | each of the seven statuses is given if and only if the totals are in its range |
| History.RowsIgnoreProvenance | src/ledgerflow/store.py:299-306 | the fetched rows of a transaction are the same, in the same order, whatever the delivery times, sources and customer tokens |
| History.RowsInOrder | src/ledgerflow/store.py:299-306 | rows come by version, then event time, then id |
| History.AssessReadsColumns | src/ledgerflow/store.py:313-361 | the lifecycle verdict depends on version, type, amount and party columns only, not on provenance or event times |
| Projection.ProjectionIsExact | src/ledgerflow/store.py:286-426 | each projection table holds exactly the rows that accepted history calls for |
| Projection.ExceptedOrStated | src/ledgerflow/store.py:362-426 | a transaction is wholly excepted or has exactly one state row, never both and never neither |
| Projection.ProjectionIgnoresProvenance | src/ledgerflow/store.py:286-307 | histories that differ in delivery times, sources and customer tokens only have identical projections, row for row |
| Intake.FirstWriterWins | src/ledgerflow/store.py:243-283 | an event id belongs to the first arrival that validly claims it, with its content and identity |
| Intake.IngestAllGrows | src/ledgerflow/store.py:232-283 | seen identities, accepted events and quarantine rows are never changed or removed by ingestion |
| Intake.ReplayAddsNothing | src/ledgerflow/store.py:247-258 | a batch that claims only seen ids leaves identities and accepted events as they were |
| Intake.ArrivalsAreClassified | src/ledgerflow/store.py:193-195 | every arrival is counted once as accepted, duplicate or quarantined, and the counts are the table growths |
| Store.FreshEntry | src/ledgerflow/store.py:385-399 | a ledger line about to be inserted never meets its entry id in the table |
| Store.LedgerStore.InsertLine | src/ledgerflow/store.py:385-399 | a line is inserted exactly if its event is posted and its entry id is new |
| Store.LedgerStore.IngestOne | src/ledgerflow/store.py:224-283 | one arrival changes the tables and counts as specified, a quarantined one adding its reason and redacted object, and no key is violated |
| Store.LedgerStore.RejectTransaction | src/ledgerflow/store.py:362-368 | every event of an invalid transaction gets one exception row, without a key violation |
| Store.LedgerStore.PostEvent | src/ledgerflow/store.py:369-399 | one event adds its posted row and its lines, or fails exactly if its rule does not cancel |
| Store.LedgerStore.ProjectTransaction | src/ledgerflow/store.py:310-426 | a transaction is projected as a unit: all exceptions, or all postings and one state |
| Store.LedgerStore.RebuildProjections | src/ledgerflow/store.py:286-307 | the delete-then-rebuild loops end with the projection of accepted history; the only failure is an unbalanced rule, never a key |
| Store.LedgerStore.Attempt | src/ledgerflow/store.py:190-206 | the transaction body ends as specified or fails, and fails exactly for an injected fault or an unbalanced posting group |
| Store.LedgerStore.Process | src/ledgerflow/store.py:172-221 | a repeated run id changes nothing, a failing or dying run changes only the journal, a committing run installs exactly its outcome, and the journal says succeeded only if the process survived its last update |
| Store.LedgerStore.ReconcileSettlement | src/ledgerflow/store.py:443-497 | repeated evidence keys fail and change nothing; otherwise the evidence table holds exactly the delivered rows' amounts, each recorded difference is that of the expected and the delivered amount, every difference is recorded, and the verdict is true if and only if every row has the expected amount and nothing is expected without a row |
| Store.LedgerStore.CompareAll | src/ledgerflow/store.py:477-492 | the comparison loop records exactly the non-zero differences and the sum of their absolute values |
| Store.CountOutcome | src/ledgerflow/store.py:527-532 | the reported count of an outcome is its total over all reasons |
| Store.LedgerStore.Summarize | src/ledgerflow/store.py:499-547 | for every run id, the counts are those recorded for it or zero, the unbalanced groups are counted, and the flags are true exactly if records add up and the ledger balances per group and in total |
| Settlement.DeltasExplain | src/ledgerflow/store.py:469-485 | expected = actual + recorded delta at every key, absent counting as zero; no deltas exactly if all keys agree |
| Settlement.GateIsExact | src/ledgerflow/store.py:487-497 | the gate is open if and only if the absolute delta is zero, and the absolute delta is at least the difference of the totals |
| Settlement.AbsoluteIsOverAndUnder | src/ledgerflow/store.py:490-492 | the absolute delta is all that was expected too much plus all that was expected too little |
| Settlement.ExpectedIsExact | src/ledgerflow/store.py:428-441 | a day, processor and currency is expected to settle if and only if something was posted for it, for what was captured less what was refunded and charged back on that day |
| SettlementLaws.EvidenceIsNeverStale | src/ledgerflow/store.py:286-292 | after any interleaving of runs and reconciliations, the settlement tables hold exactly the evidence that no commit has discarded since, compared with what the present projections expect |
| SettlementLaws.NoDifferenceExactly | src/ledgerflow/store.py:477-497 | while evidence stands, no difference is recorded if and only if it agrees with what is expected now |
| RunLaws.TablesMirrorHistory | src/ledgerflow/store.py:286-307 | after any runs, failed ones included, the projections are those of the accepted history |
| RunLaws.AcceptedIsExplained | src/ledgerflow/store.py:223-283 | accepted ids are exactly those claimed by a committed raw event, each with the content and identity of such a claim |
| RunLaws.Confluence | src/ledgerflow/store.py:190-215 | raw events, permuted, repeated, split into runs and interleaved with failing and dying runs in any way, end with identical projections if rivals agree on what projections read, and with the same accepted history if they agree on all but delivery |
| RunLaws.HistoryOrderIrrelevantExactly | src/ledgerflow/store.py:243-258 | the accepted history is independent of arrival order if and only if no two claims on one event id differ in more than delivery time |
| RunLaws.JournalIsTruthful | src/ledgerflow/store.py:185-220 | after any runs, succeeded means committed and failed means not committed; started may be either |
| JournalLaws.JournalIsExact | src/ledgerflow/store.py:185-220 | the journal lists exactly the ids that were run; each has the fate of its first run: succeeded if and only if that committed and survived, failed if and only if it reached no commit, and outcomes exist exactly for commits |
| JournalLaws.SeenNamesItsRun | src/ledgerflow/store.py:260-262 | an identity is known if and only if some committed run was the first to claim it, and it names that run |
| JournalLaws.ReasonsAreCounted | src/ledgerflow/store.py:236-257 | for every reason, a run counts as many refusals as it adds quarantine rows with that reason |
| OrderLaws.SwapShowsNothingExactly | src/ledgerflow/store.py:286-426 | replacing one accepted event by another under its id leaves every table's rows as they are if and only if transaction and verdict stay and, where the verdict is acceptance, the visible columns |
| OrderLaws.OrderIrrelevantExactly | src/ledgerflow/store.py:243-307 | every order, batching and repetition of raw events gives the same rows in every projection table if and only if, whichever claims are picked, replacing one by a rival is such a replacement |
| OrderLaws.VisibleAgreementSuffices | src/ledgerflow/store.py:369-426 | rivals that agree on the columns a valid history shows never make order matter |
| OrderLaws.ValidRivalsMakeOrderMatter | src/ledgerflow/store.py:369-426 | a rival that differs in a shown column from an event of a valid picked history makes order matter |
| RunLaws.ReplayHasNoSecondEffect | src/ledgerflow/store.py:243-258 | a run over committed raw events, in any order and number, accepts nothing and changes no accepted, identity or projection table |
| Redelivery.RedeliveryIsDuplicate | src/ledgerflow/store.py:243-249 | whatever was ingested before, a valid event that has its id and then comes again with any other delivery time adds one duplicate and nothing else |
| Redelivery.RedeliveriesAreDuplicates | src/ledgerflow/store.py:243-258 | a run over any redeliveries of committed events without conflicts counts exactly arrivals and duplicates, quarantines nothing and changes no accepted event or projection |
| Redelivery.RedeliveryIsAlreadyPublished | lambdas/schema_identity_gate/handler.py:73-89 | from every reachable world, a worker for the redelivery of a published event ends as already published and changes neither table, bucket nor conflicts |
| RunLaws.RecordsAreConserved | src/ledgerflow/store.py:190-206 | per run and over all runs, arrivals = accepted + duplicates + quarantined, and the totals are the sizes of the accepted and quarantine tables |
| RunLaws.IdentityIsPermanent | src/ledgerflow/store.py:243-283 | over any further runs no identity, accepted event or quarantine row changes |
| RunLaws.BalancedRulesCommit | src/ledgerflow/store.py:196-215 | with loaded rules, a run commits exactly if its id is new and no fault is injected |
| QuarantineLaws.QuarantineIsExact | src/ledgerflow/store.py:232-264 | after any runs, the quarantine is, row for row and in order, what the committed raw events and the final identity table call for |
| QuarantineLaws.RowsNameTheirRuns | src/ledgerflow/store.py:231-257 | a row is in the quarantine if and only if some committed run had a raw event that is refused for its reason; the row names that run and the raw event's id and holds it redacted |
| QuarantineLaws.QuarantineShowsNothingSensitive | src/ledgerflow/store.py:236-258 | after any runs, no quarantine row shows the value of a card field or of the e-mail field at any depth |
| QuarantineLaws.ConflictShowsExactly | src/ledgerflow/store.py:250-258 | the quarantine holds an identity conflict if and only if two committed claims on one event id differ in identity, whichever came first |
| QuarantineLaws.NoConflictShownConfluence | src/ledgerflow/store.py:243-307 | if the quarantine shows no identity conflict, every other way of processing the same raw events ends with the same projections and accepted events, and shows none either |
| MoneyLaws.EventsAreConserved | src/ledgerflow/store.py:299-307 | accepted events = exception rows + the sum of current versions over state rows |
| MoneyLaws.LedgerBalances | src/ledgerflow/store.py:512-522 | the rebuilt ledger balances for every event and currency, and in total |
| MoneyLaws.ReceivableIsNet | src/ledgerflow/store.py:360-426 | a transaction's receivable balance in the ledger is its captured minus refunded minus charged-back amount |
| MoneyLaws.ThreeWayAgreement | src/ledgerflow/store.py:428-441 | per processor and currency, ledger receivable, payment states and expected settlement over all dates are one amount, never negative |
| Reconstruction.WindowedEqualsSequential | spark_jobs/reconstruct_payment_state.py:20-183 | for every history, the window form gives the kernel's verdict and reason, and for accepted ones the kernel's state row in every field |
| Reconstruction.VersionConflictIsRepetition | spark_jobs/reconstruct_payment_state.py:24-28 | the largest version count exceeds one exactly if versions repeat |
| Reconstruction.AuthorizedAgrees | spark_jobs/reconstruct_payment_state.py:39-44 | with one authorization its window maximum is the kernel's sum |
| Reconstruction.LatestAgrees | spark_jobs/reconstruct_payment_state.py:146-151 | the row ranked first by descending version and id is the kernel's last row |
| Pipeline.ReconstructIs | spark_jobs/reconstruct_payment_state.py:197-204 | reconstruction of the affected history of a date is the kernel on each touched transaction's whole history |
| LakeJobs.SameLines | spark_jobs/post_ledger.py:20-54 | the pipeline's lines of any events are, as a multiset, those of the configured rules |
| LakeJobs.GateNeverFires | spark_jobs/post_ledger.py:55-61 | the double-entry gate never raises |
| LakeJobs.LakeTables.IngestAcceptedEvents | spark_jobs/ingest_accepted_events.py:42-48 | the job inserts exactly the events whose id is absent |
| LakeJobs.LakeTables.ReconstructPaymentState | spark_jobs/reconstruct_payment_state.py:197-222 | the job performs the state merge, then the exception merge |
| LakeJobs.LakeTables.PostLedger | spark_jobs/post_ledger.py:78-106 | the job always succeeds and performs the posted merge, then the ledger merge |
| PipelineLaws.StepKeeps | spark_jobs/post_ledger.py:78-106 | every single merge keeps the invariant that ties states, exceptions, postings and lines to accepted history |
| PipelineLaws.AlwaysInvariant | spark_jobs/reconstruct_payment_state.py:197-222 | the invariant holds after every step sequence, interleaved, repeated or cut short |
| PipelineLaws.ExceptedExactly | spark_jobs/reconstruct_payment_state.py:215-222 | a transaction has exception rows if and only if some exception merge touched it while its history was invalid |
| PipelineLaws.StatedExactly | spark_jobs/reconstruct_payment_state.py:208-221 | a transaction has a state row if and only if some state merge touched it while its history was valid |
| PipelineLaws.AlwaysBehind | spark_jobs/reconstruct_payment_state.py:198-214 | in every reachable state, a state row never counts more versions than events are accepted, and fewer if some event is unread |
| MergeLaws.ExceptionRowsAreExact | spark_jobs/reconstruct_payment_state.py:85-142 | over all step sequences, an event has an exception row if and only if some exception merge found its transaction invalid, and the row holds the event, the kernel's reason and totals and the largest authorized amount of the history that the last such merge read |
| MergeLaws.ExceptionMergeWrites | spark_jobs/reconstruct_payment_state.py:215-222 | right after an exception merge that touches an invalid transaction, each of its events has such a row |
| MergeLaws.ReasonsAgreeWithStore | src/ledgerflow/store.py:362-368 | once exceptions are merged, an invalid transaction's reason is that of the store's rebuilt exception rows |
| MergeLaws.StateRowsAreExact | spark_jobs/reconstruct_payment_state.py:208-221 | a state row is the kernel's state of the history that the last state merge to find it valid has read |
| MergeLaws.PostedExactly | spark_jobs/post_ledger.py:84-99 | an event is posted if and only if some posted merge read it while it had no exception row |
| MergeLaws.EnteredExactly | spark_jobs/post_ledger.py:100-106 | an event has its two lines if and only if some ledger merge read it while it had no exception row |
| RunPostings.InvalidIsNotPosted | spark_jobs/post_ledger.py:84-106 | a completed date run that touches a transaction and finds it invalid posts and enters none of its events |
| FinanceView.IncrementalRefinesRebuild | dbt/models/marts/dim_payment_current.sql:3-22 | after any steps, once every merge has read a transaction's events it is shown exactly if the full rebuild states it and no earlier merge found it invalid; what is shown is the rebuild's state row, net and lines |
| DateRuns.CompletedRunsRefineRebuild | spark_jobs/reconstruct_payment_state.py:186-223 | after completed, non-overlapping date runs over events of any dates, a transaction is shown as the rebuild has it if and only if a run has touched it since its last new event, or some run excepted it, or neither the rebuild nor any run states it |
| DateRuns.RunsSettle | spark_jobs/reconstruct_payment_state.py:197-204 | which transactions all merges have read after completed runs, from deliveries and dates alone |
| DateRuns.CoveredRunsRefineRebuild | spark_jobs/post_ledger.py:78-106 | if the converted date of every newly delivered event is that of its own or a later completed run, every transaction is shown as the rebuild has it |
| DateRuns.MisdatedAuthorizationIsMissing | spark_jobs/reconstruct_payment_state.py:198-203 | a valid authorization filed under one date and converted to another is accepted by a completed run, stated by the rebuild, not excepted, and not shown |
| DateRuns.FilledGapStaysHidden | dbt/models/marts/dim_payment_current.sql:18-22 | a transaction excepted by a completed run stays hidden after a completed run has filled its gap and whatever follows, although its history has become valid |
| FinanceView.NetIsLedgerBalance | dbt/models/marts/dim_payment_current.sql:12 | the net column is the receivable balance of the transaction's visible ledger lines |
| FinanceView.DailyLedgerBalances | dbt/models/marts/fct_ledger_daily.sql:3-18 | in every reachable state the accounts of each date, processor, merchant and currency cancel |
| DailyViews.DailyRowsAreExact | dbt/models/marts/fct_ledger_daily.sql:3-18 | in every reachable state, per date and party: the receivable is captures less refunds and chargebacks, the payable refunds less captures, the loss chargebacks, and each row counts exactly the entered events of its kinds |
| DailyViews.ViewsAgree | dbt/models/marts/dim_payment_current.sql:12 | once all events are carried through, the receivable column summed over dates and merchants is the net column summed over shown transactions, for every processor and currency |
| Revisions.NamesIdentify | lambdas/manifest_loader/handler.py:144-146 | execution names agree exactly if date, revision and truncated sha agree |
| RevisionLaws.StepKeeps | lambdas/manifest_loader/handler.py:34-67 | every action of a loader or an execution keeps the protocol invariant and moves records only forward |
| RevisionLaws.AlwaysInvariant | orchestration/stepfunctions/settlement_workflow.asl.json:5-147 | the protocol invariant holds after every action sequence |
| RevisionLaws.PublicationSafety | orchestration/stepfunctions/settlement_workflow.asl.json:5-143 | a reconciled date has an execution of exactly its current revision and sha that passed all five Glue stages and wrote its evidence |
| RevisionLaws.NewerRevisionsStand | orchestration/stepfunctions/settlement_workflow.asl.json:121-143 | no action lowers a revision; a publish changes nothing but the status of its own revision and sha |
| RevisionLaws.RegistrationsAreOrdered | lambdas/manifest_loader/handler.py:37-52 | registered revisions of a date strictly increase and each names one sha |
| RevisionLaws.OneExecutionPerRevision | lambdas/manifest_loader/handler.py:144-168 | at most one execution exists per date and revision although its name truncates the sha |
| RevisionLaws.ClassificationIsTruthful | lambdas/manifest_loader/handler.py:56-67 | stale, reused, duplicate and started verdicts are true of the records and executions, although write and read are separate |
| RevisionLaws.SupersededMeansNewer | orchestration/stepfunctions/settlement_workflow.asl.json:138-147 | an execution ends superseded only if a strictly higher revision is registered |
| RevisionOutcomes.ReconciledExactly | orchestration/stepfunctions/settlement_workflow.asl.json:121-143 | an execution's own revision is reconciled if and only if its publishing update met the condition and no registration has replaced the record since |
| RevisionOutcomes.FailedYetReconciledExactly | orchestration/stepfunctions/settlement_workflow.asl.json:138-152 | a failed workflow did commit its publication if and only if its update met the condition with the reply lost and the record was not replaced |
| RevisionOutcomes.FailedWorkflowHasPublished | orchestration/stepfunctions/settlement_workflow.asl.json:148-152 | an actual run that ends failed with its date reconciled at its revision |
| RevisionHandler.SettlementControl.RegisterRevision | lambdas/manifest_loader/handler.py:34-67 | one conditional write, and only if it fails a read that decides duplicate, stale or reused |
| RevisionHandler.SettlementControl.RegisterAndStart | lambdas/manifest_loader/handler.py:136-172 | the handler's tail does exactly what an uninterrupted loader of the protocol does, with the same result |
| LoaderOutcomes.AnswersAreExact | lambdas/manifest_loader/handler.py:147-172 | a loader answers verified if and only if its own update registered and its own start created the execution, recovered duplicate if and only if it read its own revision back and created it, and duplicate manifest if and only if its start met an existing execution |
| LoaderOutcomes.NamesAreExact | lambdas/manifest_loader/handler.py:144-146 | two manifests share an execution name if and only if date, revision and the first sixteen characters of the sha agree |
| LoaderOutcomes.VerifiedKeyIdentifies | lambdas/manifest_loader/handler.py:117-120 | no two manifests share a verified object |
| Publication.KeyIdentifies | lambdas/schema_identity_gate/handler.py:57 | an accepted object's key names one event id |
| PublicationLaws.StepKeeps | lambdas/schema_identity_gate/handler.py:56-100 | every action of a worker keeps the invariant and moves table and bucket only forward |
| PublicationLaws.AlwaysInvariant | lambdas/schema_identity_gate/handler.py:56-100 | the invariant holds after every action sequence |
| PublicationLaws.IdentityIsPermanent | lambdas/schema_identity_gate/handler.py:59-69 | a reserved identity and key never change, published stays published, an object changes only its delivery time |
| PublicationLaws.PublishedHasItsObject | lambdas/schema_identity_gate/handler.py:90-100 | a published row's object exists and its content is the reserved identity's event |
| PublicationLaws.OneObjectPerEvent | lambdas/schema_identity_gate/handler.py:57-66 | at most one accepted object ever exists per event id, under the reserved key |
| PublicationLaws.VerdictsAreTruthful | lambdas/schema_identity_gate/handler.py:73-100 | the final conditional update never fails its condition, and published and conflict verdicts are true of the table |
| PublicationLaws.RetryCompletes | lambdas/schema_identity_gate/handler.py:56-100 | from every reachable world, an undisturbed worker ends published now or already published, according to the row it meets, or in conflict exactly if the id has another identity |
| PublicationLaws.PublicationFeedsIngestion | orchestration/stepfunctions/settlement_workflow.asl.json:27 | the objects under a date's prefix are a well-formed delivery with one event per id, exactly the published events whose texts carry that date; their converted dates may differ |
| PublicationLaws.PrefixIsDate | lambdas/schema_identity_gate/handler.py:57 | an accepted key lies under a ten-character date if and only if the event's text carries it |
| PublicationLaws.ConflictsAreLosers | lambdas/schema_identity_gate/handler.py:79-87 | every quarantined conflict is, under its id's key, the event of a worker that lost the id to another identity |
| PublicationHandler.IdentityGate.PublishAccepted | lambdas/schema_identity_gate/handler.py:56-100 | with any one call raising, the function does exactly a worker's actions up to that call |
| PublicationHandler.IdentityGate.Admit | lambdas/schema_identity_gate/handler.py:110-120 | a record is opened, checked, kept and validated in this order: it raises exactly for an undecodable object, an unhashable operation or a failing write, and otherwise yields its payload or its contract error; the whole raw object is kept exactly if its payload carries no card data |
| PublicationHandler.IdentityGate.HandleRecord | lambdas/schema_identity_gate/handler.py:107-130 | a record does exactly its worker's actions if its payload meets every demand and nothing at all otherwise; it is reported exactly if it raised, aborts exactly if its quarantine write raised, is settled in all other cases, and both buckets hold what they held plus the record's own write |
| PublicationHandler.PublishedExactly | lambdas/schema_identity_gate/handler.py:110-122 | a record goes on to publication if and only if its object opens as a payload that meets every demand |
| PublicationHandler.VerdictIsExact | lambdas/schema_identity_gate/handler.py:110-128 | for which reason a record is turned away, in terms of its own object, both ways |
| PublicationHandler.EvidenceIsExact | lambdas/schema_identity_gate/handler.py:115-119 | the whole object is kept under its day and id if and only if it opens as a payload without card data; an error other than a contract error is raised exactly for an undecodable record, a compound operation or a failing write |
| PublicationHandler.QuarantineIsExact | lambdas/schema_identity_gate/handler.py:123-128 | the contract quarantine gets the verdict's reason and the redacted object, under the record's id |
| PublicationHandler.OtherOperationsAreQuarantined | src/ledgerflow/contracts.py:249-250 | an envelope for any operation but insert and load is quarantined with that reason, leaves no evidence and is never published |
| PublicationHandler.InterruptedWhere | lambdas/schema_identity_gate/handler.py:56-100 | a raising call leaves the worker before the write that raised, unless it never came to that call |
| PublicationHandler.IdentityGate.HandleBatch | lambdas/schema_identity_gate/handler.py:103-131 | every record has failed or is settled, the failures are the ids of the failed records in order, records that raise fail and only those that may fail do, the batch fails as a whole only if a quarantine write raised, and both buckets hold exactly the records' writes, applied in order |
| PublicationHandler.EvidenceSurvivesExactly | lambdas/schema_identity_gate/handler.py:108-119 | after a batch, a kept record's key holds the record's own raw object if and only if the last object written under that key has the same content |
| PublicationHandler.EvidenceSurvives | lambdas/schema_identity_gate/handler.py:118-119 | a kept object survives its batch if no later kept record has its date and id |
| PublicationHandler.UnknownRecordsOverwrite | lambdas/schema_identity_gate/handler.py:108 | of two kept records without an id on one day, only the second one's object is under their key |
| PublicationHandler.KeptCardDataExactly | lambdas/schema_identity_gate/handler.py:115-119 | the object kept for a record carries card data if and only if it is an envelope that opens, with clean data and card data outside of it; a direct event that is kept never does |
| PublicationHandler.BatchEvidenceCleanExactly | lambdas/schema_identity_gate/handler.py:107-119 | a batch leaves clean evidence clean if and only if none of the objects that it wrote last under their keys is such an envelope |
| PublicationHandler.EnvelopeKeepsCardNumber | lambdas/schema_identity_gate/handler.py:115-122 | a valid event in an envelope whose metadata holds a card number goes on to publication, and the card number is kept |
| FaultLaws.LostReplyHasFullEffect | lambdas/manifest_loader/handler.py:37-56 | a lost reply to a registration, start, evidence write or publish leaves the same records, executions and evidence as a received one |
| FaultLaws.LostReplyPublishes | lambdas/schema_identity_gate/handler.py:59-100 | a lost reply to a reservation, object write or status update leaves the same table, bucket and conflicts as a received one |
| FaultLaws.AnyStageMayFail | orchestration/stepfunctions/settlement_workflow.asl.json:148-152 | an execution may fail before or at its publishing state, which changes nothing but that execution |
| FaultLaws.AnyLoaderMayCrash | lambdas/manifest_loader/handler.py:136-172 | a loader may crash between any two calls, which changes nothing but that loader |
| FaultLaws.AnyWorkerMayCrash | lambdas/schema_identity_gate/handler.py:56-100 | a worker may crash between any two calls, which changes nothing but that worker |
| Agreement.ObjectsCameIn | lambdas/schema_identity_gate/handler.py:111-122 | after every action sequence, each published object is the validated form of a raw event that was received |
| Agreement.ViewsAgreeWithStore | dbt/models/marts/dim_payment_current.sql:3-22 | raw events published by any interleaving of workers and carried through covering runs are shown, transaction by transaction, as the store projects the same raw events, unless a run excepted the transaction |
| Simulator.GenerateValid | src/ledgerflow/simulator.py:59-105 | whole transactions are generated until the minimum is reached, unless a timestamp passes the end of the calendar |
| Simulator.Inject | src/ledgerflow/simulator.py:107-141 | the arrivals are the shuffled events, every other record of the repeated prefix, and the four refused records |
| Simulator.GeneratePaymentEvents | src/ledgerflow/simulator.py:45-155 | the errors and, otherwise, arrivals and report as specified |
| SimulatorLaws.GeneratedIdInjective | src/ledgerflow/simulator.py:24-30 | zero-padded transaction numbers and versions give distinct event ids |
| SimulatorLaws.TransactionShape | src/ledgerflow/simulator.py:62-105 | a transaction authorizes and captures one amount between 10000 and 499999; numbers divisible by five refund a quarter and others divisible by seven charge back a fifth; events are a minute apart and delivered within four minutes |
| SimulatorLaws.AmountsAndDelaysStep | src/ledgerflow/simulator.py:27-63 | amounts step through 10000..499999 and delivery delays through 0..239 seconds by fixed strides |
| SimulatorLaws.SourcesTakeTurns | src/ledgerflow/simulator.py:62 | the first n transactions go to the n sources in order, and so on in rounds |
| SimulatorLaws.PartiesRepeat | src/ledgerflow/simulator.py:24-41 | processors, merchants and customers repeat with periods 3, 250 and 10000, and never sooner |
| SimulatorLaws.DuplicatesAre | src/ledgerflow/simulator.py:110-112 | every other record of the prefix is repeated, at least two of four events, and of many events half as many as a three-hundredth of them |
| SimulatorLaws.PayloadIsAdmitted | src/ledgerflow/simulator.py:15-42 | a generated event is admitted, as exactly its draft, if and only if its source is a known payment source |
| SimulatorLaws.FixtureReasons | src/ledgerflow/simulator.py:122-141 | the three malformed records are refused for exactly the intended reasons |
| SimulatorLaws.ConflictIsRival | src/ledgerflow/simulator.py:114-120 | the changed copy is a valid claim on the same event id under another identity |
| SimulatorOutcome.ConflictOrderMatters | src/ledgerflow/simulator.py:114-120 | an authorization and the generator's conflicting copy of it leave different tables, depending on which arrives first |
| SimulatorOutcome.ProjectionOfGenerated | src/ledgerflow/simulator.py:58-105 | generated histories raise no business exception and give one state per transaction, with the amounts and status of its events |
| SimulatorOutcome.GeneratorEndToEnd | src/ledgerflow/simulator.py:45-155 | for every minimum and shuffle, a run on a fresh store accepts exactly the valid events, counts exactly the injected duplicates, quarantines exactly four and projects cleanly, if and only if every source used is a known payment source |

## Left out

- Store.LedgerStore.Process: wall-clock columns, `input_sha256` and failure texts are not modelled.
- Store.LedgerStore.IngestOne: the canonical JSON text of accepted and quarantined rows is not modelled, only what it encodes; `schema_version` is the constant "1.0" and is not stored.
- PublicationHandler.IdentityGate.HandleBatch: base64 and JSON text are not modelled; a service call that raises does so before taking effect (`PublicationLaws` covers lost replies).
- PublicationHandler.EvidenceSurvivesExactly: speaks of the current object under a key; older versions that a versioned bucket retains are not modelled.
- RevisionLaws.OneExecutionPerRevision: Step Functions forgets execution names after ninety days; the model never does.
- Contracts.IdentityDeterminesEvent: rests on the fingerprint being injective; hash collisions are not modelled.
- DateRuns.CompletedRunsRefineRebuild: runs that overlap are covered only by the step-level results in `PipelineLaws` and `FinanceView`; the conversion of event texts to dates is a parameter.
- The extraction of a manifest from its S3 event, its control-value checks and the verified copy (`lambdas/manifest_loader/handler.py:21-135`): a delivered manifest is one that passed them.
- `reconcile_settlements.py`: the store's comparison is modelled, the Spark job's overwrite of settlement tables is not.
- `manifest.py`, `validate_settlement_manifest.py`, registry loading: simple folds that would add only easy members.
- `lifecycle_violation_fixture` and `unique_crash_fixture` of the generator.
- AWS, SQLite and Spark mechanics, Terraform, Airflow, Iceberg maintenance, command line, reports and claim validators.
