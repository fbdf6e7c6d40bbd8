/** The specification of a run over the whole database: classify, rebuild, commit or roll back. */
module Runs {
  import opened Wrappers
  import opened Sums
  import opened Contracts
  import opened Ledger
  import opened Lifecycle
  import opened History
  import opened Projection
  import opened Intake
  import opened Settlement

  datatype RunStatus = Started | Succeeded | Failed

  datatype Failpoint = AfterIdentityGate | BeforeCommit

  /** Where the process dies, if it does: inside the transaction, or between the commit and the journal's last update. */
  datatype Death = Survives | DiesBeforeCommit | DiesAfterCommit

  datatype RunInput =
    RunInput(runId: string, rawEvents: seq<Raw>, failpoint: Option<Failpoint>, death: Death := Survives)

  /** Every table of the store. */
  datatype Database = Database(
    journal: map<string, RunStatus>,
    outcomes: map<string, Counter>,
    seen: map<string, SeenRow>,
    accepted: Accepted,
    quarantine: seq<QuarantineRow>,
    tables: Tables,
    settlementActual: Amounts,
    settlementExceptions: map<SettlementKey, Delta>
  )

  const EMPTY_DATABASE := Database(map[], map[], map[], map[], [], EMPTY_TABLES, map[], map[])

  ghost predicate EventPostable(e: PaymentEvent, rules: PostingRules) {
    && e.eventType in rules.rules
    && e.amountMinor * SumSeq(RuleFor(rules, e.eventType), Multiplier) == 0
  }

  /** No event of a valid transaction would produce an unbalanced posting group. */
  ghost predicate RowsPostable(rows: seq<PaymentEvent>, rules: PostingRules) {
    rows != [] && Assess(rows).None? ==> forall e :: e in rows ==> EventPostable(e, rules)
  }

  ghost predicate Postable(accepted: Accepted, ids: seq<string>, rules: PostingRules)
    requires Keyed(accepted)
  {
    forall id :: id in ids ==> RowsPostable(Rows(accepted, id), rules)
  }

  lemma BalancedRulesArePostable(accepted: Accepted, ids: seq<string>, rules: PostingRules)
    requires Keyed(accepted) && BalancedRules(rules)
    ensures Postable(accepted, ids, rules)
  {
    forall e: PaymentEvent ensures EventPostable(e, rules) {
      assert SumSeq(RuleFor(rules, e.eventType), Multiplier) == 0;
    }
  }

  /** The tray with which a run starts: the committed tables and an empty counter. */
  function Opening(db: Database): Tray {
    Tray(db.seen, db.accepted, db.quarantine, map[])
  }

  function Ingested(gate: Gate, db: Database, run: RunInput): Tray {
    IngestAll(gate, run.runId, Opening(db), run.rawEvents)
  }

  ghost predicate Sound(gate: Gate, db: Database) {
    Consistent(gate, db.seen, db.accepted)
  }

  /** The transaction runs to its end: the id is new, no fault is injected, and every posting group balances. */
  ghost predicate Completes(gate: Gate, rules: PostingRules, db: Database, run: RunInput)
    requires Sound(gate, db)
  {
    IngestAllKeeps(gate, run.runId, Opening(db), run.rawEvents);
    && run.runId !in db.journal
    && run.failpoint.None?
    && var accepted := Ingested(gate, db, run).accepted; Postable(accepted, TransactionIds(accepted), rules)
  }

  ghost predicate Commits(gate: Gate, rules: PostingRules, db: Database, run: RunInput)
    requires Sound(gate, db)
  {
    Completes(gate, rules, db, run) && !run.death.DiesBeforeCommit?
  }

  /** The data commit; the journal still says started if the process dies before updating it. */
  ghost function Committed(gate: Gate, rules: PostingRules, db: Database, run: RunInput): Database
    requires Sound(gate, db)
  {
    IngestAllKeeps(gate, run.runId, Opening(db), run.rawEvents);
    var tray := Ingested(gate, db, run);
    Database(db.journal[run.runId := if run.death.DiesAfterCommit? then Started else Succeeded],
             db.outcomes[run.runId := tray.counts],
             tray.seen, tray.accepted, tray.quarantine, Project(tray.accepted, rules), map[], map[])
  }

  /** A repeated run id changes nothing; a run that fails or dies before its commit changes only the journal. */
  ghost function ProcessRun(gate: Gate, rules: PostingRules, db: Database, run: RunInput): Database
    requires Sound(gate, db)
  {
    if run.runId in db.journal then db
    else if Commits(gate, rules, db, run) then Committed(gate, rules, db, run)
    else db.(journal := db.journal[run.runId := if run.death.DiesBeforeCommit? then Started else Failed])
  }

  /** Evidence with distinct keys replaces what was there, together with its differences from what is expected now. */
  ghost function Reconciled(db: Database, rows: seq<ActualRow>): Database {
    if !DistinctKeys(rows) then db
    else db.(settlementActual := ActualAmounts(rows),
             settlementExceptions := Deltas(ExpectedSettlement(db.tables.posted), ActualAmounts(rows)))
  }

  lemma RunOutcome(gate: Gate, rules: PostingRules, db: Database, run: RunInput)
    requires Sound(gate, db)
    ensures Completes(gate, rules, db, run) ==> run.runId !in db.journal
    ensures run.runId in db.journal ==> ProcessRun(gate, rules, db, run) == db
    ensures Completes(gate, rules, db, run) && !run.death.DiesBeforeCommit? ==>
              ProcessRun(gate, rules, db, run) == Committed(gate, rules, db, run)
    ensures run.runId !in db.journal && run.death.DiesBeforeCommit? ==>
              ProcessRun(gate, rules, db, run) == db.(journal := db.journal[run.runId := Started])
    ensures run.runId !in db.journal && !run.death.DiesBeforeCommit? && !Completes(gate, rules, db, run) ==>
              ProcessRun(gate, rules, db, run) == db.(journal := db.journal[run.runId := Failed])
  {
    hide Postable, Ingested, Committed;
  }

  lemma CommittedJournal(gate: Gate, rules: PostingRules, db: Database, run: RunInput)
    requires Sound(gate, db)
    ensures Committed(gate, rules, db, run).journal
         == db.journal[run.runId := if run.death.DiesAfterCommit? then Started else Succeeded]
  {
    hide Project, Ingested;
  }

  lemma ProcessRunSound(gate: Gate, rules: PostingRules, db: Database, run: RunInput)
    requires Sound(gate, db)
    ensures Sound(gate, ProcessRun(gate, rules, db, run))
  {
    IngestAllKeeps(gate, run.runId, Opening(db), run.rawEvents);
  }
}
