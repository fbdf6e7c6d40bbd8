/** The generated history in the store: every transaction is valid, and what its state row says. */
module SimulatorOutcome {
  import opened Wrappers
  import opened Sums
  import opened Ordering
  import opened Contracts
  import opened Ledger
  import opened Lifecycle
  import opened History
  import opened Projection
  import opened Intake
  import opened Runs
  import OrderLaws
  import opened Simulator
  import opened SimulatorLaws

  function EventsFor(gate: Gate, clock: Clock, drafts: seq<Draft>): seq<PaymentEvent> {
    seq(|drafts|, i requires 0 <= i < |drafts| => EventFor(gate, clock, drafts[i]))
  }

  function DraftsOf(sources: seq<Source>, number: nat): seq<Draft>
    requires sources != [] && number >= 1
  {
    TransactionDrafts(number, SourceFor(sources, number))
  }

  /** The state row that a generated transaction must end with. */
  function GeneratedState(number: nat): PaymentState {
    var amount := AmountOf(number);
    var refunded := if number % 5 == 0 then AtLeastOne(amount / 4) else 0;
    var chargedBack := if number % 5 != 0 && number % 7 == 0 then AtLeastOne(amount / 5) else 0;
    var version := if refunded + chargedBack > 0 then 3 else 2;
    PaymentState(
      TransactionId(number), version, GeneratedId(number, version),
      if refunded > 0 then PartiallyRefunded else if chargedBack > 0 then PartiallyChargedBack else Captured,
      amount, amount, refunded, chargedBack,
      CURRENCIES[number % |CURRENCIES|], ProcessorId(number), MerchantId(number))
  }

  // ---- one generated transaction ----

  lemma SumOfThree(a: PaymentEvent, b: PaymentEvent, c: PaymentEvent, f: PaymentEvent -> int)
    ensures SumSeq([a, b], f) == f(a) + f(b)
    ensures SumSeq([a, b, c], f) == f(a) + f(b) + f(c)
  {
    SumSeqSingle(b, f);
    SumSeqSingle(c, f);
    SumSeqConcat([a], [b], f);
    SumSeqConcat([a, b], [c], f);
    SumSeqSingle(a, f);
    assert [a] + [b] == [a, b] && [a, b] + [c] == [a, b, c];
  }

  /** An authorization, a full capture and perhaps one smaller reversal. */
  ghost predicate Regular(rows: seq<PaymentEvent>) {
    && 2 <= |rows| <= 3 && OneToN(rows)
    && (forall e :: e in rows ==>
          e.currency == rows[0].currency && e.processorId == rows[0].processorId
          && e.merchantId == rows[0].merchantId)
    && rows[0].eventType.Authorization? && rows[1].eventType.Capture?
    && 0 < rows[0].amountMinor == rows[1].amountMinor
    && (|rows| == 3 ==> IsReversal(rows[2]) && 0 < rows[2].amountMinor < rows[1].amountMinor)
  }

  lemma RegularTotals(rows: seq<PaymentEvent>)
    requires Regular(rows)
    ensures AuthorizedMinor(rows) == rows[0].amountMinor && CapturedMinor(rows) == rows[0].amountMinor
    ensures RefundedMinor(rows) == if |rows| == 3 && IsRefund(rows[2]) then rows[2].amountMinor else 0
    ensures ChargebackMinor(rows) == if |rows| == 3 && IsChargeback(rows[2]) then rows[2].amountMinor else 0
  {
    hide AuthorizedMinor, CapturedMinor, RefundedMinor, ChargebackMinor, SumSeq;
    TotalsAreParts(rows);
    var last := rows[|rows| - 1];
    assert rows == if |rows| == 2 then [rows[0], rows[1]] else [rows[0], rows[1], rows[2]];
    SumOfThree(rows[0], rows[1], last, AuthorizedPart);
    SumOfThree(rows[0], rows[1], last, CapturedPart);
    SumOfThree(rows[0], rows[1], last, RefundedPart);
    SumOfThree(rows[0], rows[1], last, ChargebackPart);
  }

  lemma RegularIsAccepted(rows: seq<PaymentEvent>)
    requires Regular(rows)
    ensures Assess(rows).None?
  {
    hide AuthorizedMinor, CapturedMinor, RefundedMinor, ChargebackMinor, Assess;
    RegularTotals(rows);
    ShapeIsAccepted(rows);
  }

  lemma GeneratedIsRegular(gate: Gate, clock: Clock, number: nat, sourceId: string)
    ensures Regular(EventsFor(gate, clock, TransactionDrafts(number, sourceId)))
  {
    hide GeneratedId, TransactionId, ProcessorId, MerchantId, EmailOf;
    var drafts := TransactionDrafts(number, sourceId);
    var rows := EventsFor(gate, clock, drafts);
    assert AmountOf(number) >= 10000;
    TransactionIsNumbered(number, sourceId);
    forall e | e in rows
      ensures e.currency == rows[0].currency && e.processorId == rows[0].processorId && e.merchantId == rows[0].merchantId
    {
      var i :| 0 <= i < |rows| && rows[i] == e;
    }
  }

  lemma GeneratedStateIs(gate: Gate, clock: Clock, number: nat, sourceId: string)
    ensures StateOf(EventsFor(gate, clock, TransactionDrafts(number, sourceId))) == GeneratedState(number)
  {
    hide GeneratedId, TransactionId, ProcessorId, MerchantId, EmailOf;
    hide AuthorizedMinor, CapturedMinor, RefundedMinor, ChargebackMinor, Regular;
    var rows := EventsFor(gate, clock, TransactionDrafts(number, sourceId));
    assert AmountOf(number) >= 10000;
    GeneratedIsRegular(gate, clock, number, sourceId);
    RegularTotals(rows);
  }

  // ---- its rows in the store ----

  lemma AcceptedEvent(gate: Gate, clock: Clock, drafts: seq<Draft>, tray: Tray, id: string) returns (d: Draft)
    requires Holds(gate, clock, drafts, tray) && id in tray.accepted
    ensures d in drafts && id == IdOf(d) && tray.accepted[id] == EventFor(gate, clock, d)
  {
    hide IdOf, EventFor, IdentityFingerprint, RawOf;
    assert UnderId(gate, clock, drafts, tray, id);
    d :| d in drafts && id == IdOf(d);
  }

  lemma HoldsIsKeyed(gate: Gate, clock: Clock, drafts: seq<Draft>, tray: Tray)
    requires Holds(gate, clock, drafts, tray)
    ensures Keyed(tray.accepted)
  {
    hide Holds;
    forall id | id in tray.accepted ensures tray.accepted[id].eventId == id {
      var d := AcceptedEvent(gate, clock, drafts, tray, id);
    }
  }

  lemma EventsOfTransaction(gate: Gate, clock: Clock, sources: seq<Source>, count: nat, tray: Tray, number: nat, e: PaymentEvent)
    requires sources != [] && Holds(gate, clock, Drafts(sources, count), tray) && 1 <= number <= count
    ensures e in EventsOf(tray.accepted, TransactionId(number)) <==> e in EventsFor(gate, clock, DraftsOf(sources, number))
  {
    hide Holds, GeneratedId, TransactionId, TransactionDrafts, SourceFor;
    var drafts, own := Drafts(sources, count), DraftsOf(sources, number);
    DraftsAre(sources, count);
    TransactionIsNumbered(number, SourceFor(sources, number));
    if e in EventsOf(tray.accepted, TransactionId(number)) {
      var id :| id in tray.accepted && tray.accepted[id] == e && e.transactionId == TransactionId(number);
      var d := AcceptedEvent(gate, clock, drafts, tray, id);
      TransactionIdInjective(d.number, number);
      var i :| 0 <= i < |own| && own[i] == d;
      assert EventsFor(gate, clock, own)[i] == e;
    }
    if e in EventsFor(gate, clock, own) {
      var i :| 0 <= i < |own| && EventsFor(gate, clock, own)[i] == e;
      assert own[i] in own;
      HoldsAt(gate, clock, drafts, tray, own[i]);
    }
  }

  lemma RowsOfTransaction(gate: Gate, clock: Clock, sources: seq<Source>, count: nat, tray: Tray, number: nat)
    requires sources != [] && Holds(gate, clock, Drafts(sources, count), tray) && 1 <= number <= count
    ensures Keyed(tray.accepted)
    ensures Rows(tray.accepted, TransactionId(number)) == EventsFor(gate, clock, DraftsOf(sources, number))
  {
    hide Holds, GeneratedId, TransactionId, TransactionDrafts, SourceFor, Keyed, EventsOf, EventOf;
    HoldsIsKeyed(gate, clock, Drafts(sources, count), tray);
    var id, own := TransactionId(number), DraftsOf(sources, number);
    var rows, events := EventsFor(gate, clock, own), EventsOf(tray.accepted, id);
    forall e ensures e in events <==> e in rows {
      EventsOfTransaction(gate, clock, sources, count, tray, number, e);
    }
    VersionsRise(gate, clock, number, SourceFor(sources, number));
    UniqueInTable(tray.accepted, id);
    EventsTotal(events);
    AscendingUnique(EventLe, Rows(tray.accepted, id), rows, events);
  }

  lemma UniqueInTable(accepted: Accepted, transactionId: string)
    requires Keyed(accepted)
    ensures UniqueIds(EventsOf(accepted, transactionId))
  {
  }

  lemma VersionsRise(gate: Gate, clock: Clock, number: nat, sourceId: string)
    ensures var rows := EventsFor(gate, clock, TransactionDrafts(number, sourceId));
      Ascending(EventLe, rows) && Distinct(rows)
  {
    hide GeneratedId, TransactionId, TransactionDrafts, ProcessorId, MerchantId, EmailOf;
    TransactionIsNumbered(number, sourceId);
  }

  // ---- the whole projection ----

  lemma TransactionIdsAre(gate: Gate, clock: Clock, sources: seq<Source>, count: nat, tray: Tray, id: string)
    requires sources != [] && Holds(gate, clock, Drafts(sources, count), tray)
    ensures id in TransactionSet(tray.accepted) <==> exists number: nat :: 1 <= number <= count && id == TransactionId(number)
  {
    hide Holds, GeneratedId, TransactionId, SourceFor, TransactionDrafts;
    var drafts := Drafts(sources, count);
    DraftsAre(sources, count);
    if id in TransactionSet(tray.accepted) {
      var e :| e in tray.accepted && tray.accepted[e].transactionId == id;
      var d := AcceptedEvent(gate, clock, drafts, tray, e);
      assert 1 <= d.number <= count && id == TransactionId(d.number);
    }
    if number: nat :| 1 <= number <= count && id == TransactionId(number) {
      var own := DraftsOf(sources, number);
      TransactionIsNumbered(number, SourceFor(sources, number));
      assert own[0] in own;
      HoldsAt(gate, clock, drafts, tray, own[0]);
    }
  }

  lemma TransactionCount(gate: Gate, clock: Clock, sources: seq<Source>, count: nat, tray: Tray)
    requires sources != [] && Holds(gate, clock, Drafts(sources, count), tray)
    ensures |TransactionIds(tray.accepted)| == count
  {
    hide Holds, TransactionId;
    var ids := seq(count, i requires 0 <= i < count => TransactionId(i + 1));
    var all := TransactionSet(tray.accepted);
    forall i, j | 0 <= i < j < |ids| ensures ids[i] != ids[j] {
      TransactionIdInjective(i + 1, j + 1);
    }
    forall id ensures id in ids <==> id in all {
      TransactionIdsAre(gate, clock, sources, count, tray, id);
      if id in all {
        var number: nat :| 1 <= number <= count && id == TransactionId(number);
        assert ids[number - 1] == id;
      }
    }
    ListingLength(ids, all);
    ListingLength(TransactionIds(tray.accepted), all);
  }

  lemma TransactionIsValid(gate: Gate, clock: Clock, sources: seq<Source>, count: nat, tray: Tray, number: nat)
    requires sources != [] && Holds(gate, clock, Drafts(sources, count), tray) && 1 <= number <= count
    ensures Keyed(tray.accepted) && Valid(tray.accepted, TransactionId(number))
    ensures StateOf(Rows(tray.accepted, TransactionId(number))) == GeneratedState(number)
  {
    hide Holds, TransactionId, Keyed, Assess, StateOf, Rows, Regular, GeneratedState;
    RowsOfTransaction(gate, clock, sources, count, tray, number);
    GeneratedIsRegular(gate, clock, number, SourceFor(sources, number));
    RegularIsAccepted(EventsFor(gate, clock, DraftsOf(sources, number)));
    GeneratedStateIs(gate, clock, number, SourceFor(sources, number));
  }

  lemma {:induction false} OneStateEach(accepted: Accepted, ids: seq<string>, rules: PostingRules)
    requires Keyed(accepted) && forall id :: id in ids ==> Valid(accepted, id)
    ensures |ProjectFirst(accepted, ids, rules).states| == |ids|
    ensures ProjectFirst(accepted, ids, rules).exceptions == []
  {
    hide Assess, StateOf, Rows, PostedTables;
    if ids != [] {
      var last := |ids| - 1;
      OneStateEach(accepted, ids[..last], rules);
      var rows := Rows(accepted, ids[last]);
      PostedTablesRows(rows, rules);
      assert ids[last] in ids;
      assert TransactionTables(rows, rules).exceptions == [] && TransactionTables(rows, rules).states == [StateOf(rows)];
    }
  }

  lemma ProjectionOfGenerated(gate: Gate, clock: Clock, sources: seq<Source>, count: nat, tray: Tray, rules: PostingRules)
    requires sources != [] && Holds(gate, clock, Drafts(sources, count), tray)
    ensures Keyed(tray.accepted)
    ensures var tables := Project(tray.accepted, rules);
      && tables.exceptions == [] && |tables.states| == count
      && forall number: nat :: 1 <= number <= count ==> GeneratedState(number) in tables.states
  {
    hide Holds, TransactionId, Keyed, Valid, GeneratedState, TransactionIds, StateOf, Assess, Rows;
    HoldsIsKeyed(gate, clock, Drafts(sources, count), tray);
    var accepted := tray.accepted;
    TransactionCount(gate, clock, sources, count, tray);
    forall id | id in TransactionIds(accepted) ensures Valid(accepted, id) {
      TransactionIdsAre(gate, clock, sources, count, tray, id);
      var number: nat :| 1 <= number <= count && id == TransactionId(number);
      TransactionIsValid(gate, clock, sources, count, tray, number);
    }
    OneStateEach(accepted, TransactionIds(accepted), rules);
    forall number: nat | 1 <= number <= count ensures GeneratedState(number) in Project(accepted, rules).states {
      TransactionIsValid(gate, clock, sources, count, tray, number);
      GeneratedStateIsStated(accepted, number, rules);
    }
  }

  lemma GeneratedStateIsStated(accepted: Accepted, number: nat, rules: PostingRules)
    requires Keyed(accepted) && Valid(accepted, TransactionId(number))
    requires StateOf(Rows(accepted, TransactionId(number))) == GeneratedState(number)
    ensures GeneratedState(number) in Project(accepted, rules).states
  {
    hide TransactionId, Keyed, Valid, Project, StateOf, Rows;
    ProjectionIsExact(accepted, rules);
    assert IsState(accepted, GeneratedState(number));
  }

  // ---- end to end ----

  ghost predicate Generates(registry: seq<Source>, minimum: int) {
    var sources := Filter(registry, IsLifecycle);
    && minimum >= MINIMUM_RECORDS && sources != []
    && AllRepresentable(Drafts(sources, Transactions(sources, minimum)))
  }

  lemma FirstDraft(sources: seq<Source>, count: nat)
    requires sources != [] && count >= 1
    ensures |Drafts(sources, count)| >= 2
    ensures ReceivedSecond(Drafts(sources, count)[0]) + 300 <= LAST_SECOND
  {
    DraftsGrow(sources, 1, count);
    assert Drafts(sources, 1) == Drafts(sources, 0) + TransactionDrafts(1, SourceFor(sources, 1));
    assert Drafts(sources, count)[0] == Drafts(sources, 1)[0];
  }

  ghost predicate AllServed(gate: Gate, drafts: seq<Draft>) {
    forall d :: d in drafts ==> Serves(gate, d.sourceId)
  }

  lemma DraftsAreSound(gate: Gate, sources: seq<Source>, count: nat)
    requires sources != [] && AllRepresentable(Drafts(sources, count)) && AllServed(gate, Drafts(sources, count))
    ensures SimulatorLaws.Sound(gate, Drafts(sources, count))
  {
    hide Serves, TransactionDrafts, Representable, Sensible;
    DraftsAre(sources, count);
    forall d | d in Drafts(sources, count) ensures Sensible(d) {
      DraftsAreSensible(sources, count, d);
    }
  }

  function Reasons(rows: seq<QuarantineRow>): seq<Reason> {
    seq(|rows|, i requires 0 <= i < |rows| => rows[i].reason)
  }

  const FIXTURE_REASONS :=
    [IdentityPayloadConflict, InvalidField("amount_minor"), UnsupportedSchemaVersion, ProhibitedFields({CARD_NUMBER})]

  lemma ReasonsOfFixtures(gate: Gate, runId: string, first: Draft, fixtures: seq<Raw>)
    requires |fixtures| == 4
    ensures var rows := FixtureRows(gate, runId, first, fixtures); |rows| == 4 && Reasons(rows) == FIXTURE_REASONS
  {
    hide Redact;
  }

  /** The counts of the run are those of the generator's report. */
  ghost predicate CountsAre(counts: Counter, report: Report) {
    && Total(counts, Arrival) == report.rawRecords
    && Total(counts, AcceptedNew) == report.validUniqueEvents
    && Total(counts, Duplicate) == report.injected.exactDuplicates
    && Total(counts, Quarantined) == 4
  }

  /** Everything that the generator promises, of the tables and counts after ingestion. */
  ghost predicate CleanTables(gate: Gate, clock: Clock, drafts: seq<Draft>, report: Report, tray: Tray, tables: Tables) {
    && CountsAre(tray.counts, report)
    && |tray.accepted| == |drafts|
    && (forall d :: d in drafts ==> IdOf(d) in tray.accepted && tray.accepted[IdOf(d)] == EventFor(gate, clock, d))
    && Reasons(tray.quarantine) == FIXTURE_REASONS
    && tables.exceptions == []
    && |tables.states| == report.transactions
    && forall number: nat :: 1 <= number <= report.transactions ==> GeneratedState(number) in tables.states
  }

  ghost predicate Clean(gate: Gate, clock: Clock, drafts: seq<Draft>, report: Report, runId: string, db: Database) {
    && runId in db.outcomes
    && CleanTables(gate, clock, drafts, report, Tray(db.seen, db.accepted, db.quarantine, db.outcomes[runId]), db.tables)
  }

  lemma OnlyRun(gate: Gate, rules: PostingRules, run: RunInput)
    requires BalancedRules(rules) && run.failpoint.None? && !run.death.DiesBeforeCommit?
    ensures var db, tray := RunLaws.After(gate, rules, [run]), Ingested(gate, EMPTY_DATABASE, run);
      && run.runId in db.outcomes
      && Tray(db.seen, db.accepted, db.quarantine, db.outcomes[run.runId]) == tray
      && Keyed(tray.accepted) && db.tables == Project(tray.accepted, rules)
  {
    hide IngestAll, Project, Postable, BalancedRules, EventOfIdentity, WellFormed, Business;
    assert [run][..0] == [] && RunLaws.After(gate, rules, []) == EMPTY_DATABASE;
    RunLaws.BalancedRulesCommit(gate, rules, EMPTY_DATABASE, run);
    IngestAllKeeps(gate, run.runId, Opening(EMPTY_DATABASE), run.rawEvents);
  }

  lemma CountsFollow(gate: Gate, clock: Clock, valid: seq<Raw>, shuffled: seq<Raw>, runId: string, report: Report)
    requires |valid| >= 2 && HasAmountAndTime(valid[0]) && SameRaws(shuffled, valid)
    requires report.rawRecords == |Arrivals(clock, valid, shuffled)|
    requires report.validUniqueEvents == |valid| && report.injected.exactDuplicates == |Duplicates(valid)|
    requires var after := IngestAll(gate, runId, Opening(EMPTY_DATABASE), Arrivals(clock, valid, shuffled));
      |after.accepted| == |valid| && |after.quarantine| == 4
    ensures CountsAre(IngestAll(gate, runId, Opening(EMPTY_DATABASE), Arrivals(clock, valid, shuffled)).counts, report)
  {
    hide IngestAll, Total, Duplicates, ConflictOf, InvalidAmountOf, UnsupportedOf, ProhibitedOf, HasAmountAndTime;
    SameRawsContain(shuffled, valid, map[]);
    ArrivalsAreClassified(gate, runId, Opening(EMPTY_DATABASE), Arrivals(clock, valid, shuffled));
    RunLaws.EmptyTotals();
  }

  ghost predicate Reports(clock: Clock, valid: seq<Raw>, shuffled: seq<Raw>, count: nat, report: Report)
    requires |valid| >= 2 && HasAmountAndTime(valid[0])
  {
    && report.rawRecords == |Arrivals(clock, valid, shuffled)|
    && report.validUniqueEvents == |valid| && report.injected.exactDuplicates == |Duplicates(valid)|
    && report.transactions == count
  }

  lemma CleanTray(
    gate: Gate, clock: Clock, rules: PostingRules, sources: seq<Source>, count: nat, shuffled: seq<Raw>, report: Report,
    runId: string)
    requires Agrees(gate, clock)
    requires sources != [] && count >= 1 && AllRepresentable(Drafts(sources, count)) && AllServed(gate, Drafts(sources, count))
    requires SameRaws(shuffled, Payloads(clock, Drafts(sources, count)))
    requires |Drafts(sources, count)| >= 2 && HasAmountAndTime(Payloads(clock, Drafts(sources, count))[0])
    requires Reports(clock, Payloads(clock, Drafts(sources, count)), shuffled, count, report)
    ensures var arrivals := Arrivals(clock, Payloads(clock, Drafts(sources, count)), shuffled);
      var tray := IngestAll(gate, runId, Opening(EMPTY_DATABASE), arrivals);
      Keyed(tray.accepted)
      && CleanTables(gate, clock, Drafts(sources, count), report, tray, Project(tray.accepted, rules))
  {
    hide Agrees, AllRepresentable, AllServed, SimulatorLaws.Sound, Holds, SameRaws, Arrivals, Project, EventFor, IdOf;
    hide IngestAll, CountsAre, GeneratedState, HasAmountAndTime, RawOf, Drafts, Keyed, Reasons, FixtureRows;
    var drafts := Drafts(sources, count);
    var valid := Payloads(clock, drafts);
    var tray := IngestAll(gate, runId, Opening(EMPTY_DATABASE), Arrivals(clock, valid, shuffled));
    FirstDraft(sources, count);
    DraftsAreSound(gate, sources, count);
    ArrivalsIngested(gate, clock, runId, drafts, shuffled);
    HoldsAll(gate, clock, drafts, tray);
    ReasonsOfFixtures(gate, runId, drafts[0], Fixtures(clock, valid));
    ProjectionOfGenerated(gate, clock, sources, count, tray, rules);
    CountsFollow(gate, clock, valid, shuffled, runId, report);
  }

  lemma CleanRun(
    gate: Gate, clock: Clock, rules: PostingRules, sources: seq<Source>, count: nat, shuffled: seq<Raw>, report: Report, runId: string)
    requires Agrees(gate, clock) && BalancedRules(rules)
    requires sources != [] && count >= 1 && AllRepresentable(Drafts(sources, count)) && AllServed(gate, Drafts(sources, count))
    requires SameRaws(shuffled, Payloads(clock, Drafts(sources, count)))
    requires |Drafts(sources, count)| >= 2 && HasAmountAndTime(Payloads(clock, Drafts(sources, count))[0])
    requires Reports(clock, Payloads(clock, Drafts(sources, count)), shuffled, count, report)
    ensures var arrivals := Arrivals(clock, Payloads(clock, Drafts(sources, count)), shuffled);
      Clean(gate, clock, Drafts(sources, count), report, runId, RunLaws.After(gate, rules, [RunInput(runId, arrivals, None)]))
  {
    hide Agrees, BalancedRules, AllRepresentable, AllServed, SameRaws, Arrivals, Project, Reports, Keyed;
    hide IngestAll, HasAmountAndTime, Drafts, RunLaws.After, RawOf, Clean, CleanTables;
    var drafts := Drafts(sources, count);
    CleanTray(gate, clock, rules, sources, count, shuffled, report, runId);
    CleanCommits(gate, clock, rules, drafts, report, runId, Arrivals(clock, Payloads(clock, drafts), shuffled));
  }

  lemma CleanCommits(
    gate: Gate, clock: Clock, rules: PostingRules, drafts: seq<Draft>, report: Report, runId: string, arrivals: seq<Raw>)
    requires BalancedRules(rules)
    requires var tray := IngestAll(gate, runId, Opening(EMPTY_DATABASE), arrivals);
      Keyed(tray.accepted) && CleanTables(gate, clock, drafts, report, tray, Project(tray.accepted, rules))
    ensures Clean(gate, clock, drafts, report, runId, RunLaws.After(gate, rules, [RunInput(runId, arrivals, None)]))
  {
    hide BalancedRules, Project, IngestAll, CleanTables, RunLaws.After, Keyed;
    OnlyRun(gate, rules, RunInput(runId, arrivals, None));
  }

  // ---- and only with known payment sources ----

  /** Which drafts a record among the arrivals can speak for. */
  lemma ArrivalSpeaksFor(clock: Clock, drafts: seq<Draft>, shuffled: seq<Raw>, raw: Raw)
    requires |drafts| >= 2 && HasAmountAndTime(Payloads(clock, drafts)[0])
    requires SameRaws(shuffled, Payloads(clock, drafts))
    requires raw in Arrivals(clock, Payloads(clock, drafts), shuffled)
    ensures raw in Payloads(clock, drafts) || raw in Fixtures(clock, Payloads(clock, drafts))
  {
    hide SameRaws, RawOf, Fixtures, DuplicateLimit;
    var valid := Payloads(clock, drafts);
    SameRawsContain(shuffled, valid, raw);
    if raw in Duplicates(valid) {
      var i :| 0 <= i < |Duplicates(valid)| && Duplicates(valid)[i] == raw;
      LimitFits(|valid|);
      assert raw == valid[2 * i];
    }
  }

  lemma LimitFits(size: nat)
    ensures DuplicateLimit(size) <= size
  {
  }

  lemma FixturesClaimOthers(gate: Gate, clock: Clock, d: Draft, number: nat, version: nat)
    ensures !Claims(gate, InvalidAmountOf(RawOf(clock, d)), GeneratedId(number, version))
    ensures !Claims(gate, UnsupportedOf(RawOf(clock, d)), GeneratedId(number, version))
    ensures !Claims(gate, ProhibitedOf(RawOf(clock, d)), GeneratedId(number, version))
  {
    hide ValidateEvent, Payload;
    assert GeneratedId(number, version)[0] == 't';
    FixtureIds(clock, d);
    ClaimIsNamed(gate, InvalidAmountOf(RawOf(clock, d)), GeneratedId(number, version));
    ClaimIsNamed(gate, UnsupportedOf(RawOf(clock, d)), GeneratedId(number, version));
    ClaimIsNamed(gate, ProhibitedOf(RawOf(clock, d)), GeneratedId(number, version));
  }

  lemma ClaimIsNamed(gate: Gate, raw: Raw, id: string)
    ensures Claims(gate, raw, id) ==> RawEventId(raw) == Some(id)
  {
    hide ValidateEvent;
    if Claims(gate, raw, id) { ValidatedEvent(gate, raw); }
  }

  /** A draft whose id is claimed by some arrival has a known payment source. */
  lemma ClaimedIsServed(gate: Gate, clock: Clock, drafts: seq<Draft>, shuffled: seq<Raw>, raw: Raw, d: Draft)
    requires Agrees(gate, clock) && |drafts| >= 2 && HasAmountAndTime(Payloads(clock, drafts)[0])
    requires IdsApart(drafts) && forall x :: x in drafts ==> Sensible(x) && Representable(x)
    requires ReceivedSecond(drafts[0]) + 300 <= LAST_SECOND
    requires SameRaws(shuffled, Payloads(clock, drafts))
    requires raw in Arrivals(clock, Payloads(clock, drafts), shuffled)
    requires d in drafts && Claims(gate, raw, IdOf(d))
    ensures Serves(gate, d.sourceId)
  {
    hide Agrees, SameRaws, Arrivals, Claims, ConflictOf, Payload, InvalidAmountOf, UnsupportedOf, ProhibitedOf, GeneratedId;
    hide Sensible, Serves, HasAmountAndTime;
    var valid := Payloads(clock, drafts);
    ArrivalSpeaksFor(clock, drafts, shuffled, raw);
    if raw in valid {
      PayloadOf(clock, drafts, raw);
      var x :| x in drafts && raw == RawOf(clock, x);
      PayloadClaim(gate, clock, x, ReceivedSecond(x), IdOf(d));
      OneDraft(drafts, d, x);
    } else {
      assert drafts[0] in drafts;
      FixturesClaimOthers(gate, clock, drafts[1], d.number, d.version);
      assert raw == ConflictOf(clock, RawOf(clock, drafts[0]));
      ConflictClaim(gate, clock, drafts[0], IdOf(d));
      OneDraft(drafts, d, drafts[0]);
    }
  }

  lemma PayloadClaim(gate: Gate, clock: Clock, d: Draft, received: nat, id: string)
    requires Agrees(gate, clock) && Sensible(d) && received <= LAST_SECOND
    requires Claims(gate, Payload(clock, d, received), id)
    ensures id == IdOf(d) && Serves(gate, d.sourceId)
  {
    hide Agrees, ValidateEvent, Payload, GeneratedId, Serves;
    PayloadIsAdmitted(gate, clock, d, received);
  }

  lemma ConflictClaim(gate: Gate, clock: Clock, d: Draft, id: string)
    requires Agrees(gate, clock) && Sensible(d) && ReceivedSecond(d) + 300 <= LAST_SECOND
    requires HasAmountAndTime(RawOf(clock, d)) && Claims(gate, ConflictOf(clock, RawOf(clock, d)), id)
    ensures id == IdOf(d) && Serves(gate, d.sourceId)
  {
    hide Claims, Payload, GeneratedId, Serves;
    ConflictIsPayload(clock, d);
    PayloadClaim(gate, clock, d.(amountMinor := d.amountMinor + 1), ReceivedSecond(d) + 300, id);
  }

  lemma AcceptedMeansServed(
    gate: Gate, clock: Clock, rules: PostingRules, sources: seq<Source>, count: nat, shuffled: seq<Raw>, runId: string,
    d: Draft)
    requires Agrees(gate, clock) && BalancedRules(rules)
    requires sources != [] && count >= 1 && AllRepresentable(Drafts(sources, count))
    requires SameRaws(shuffled, Payloads(clock, Drafts(sources, count)))
    requires |Drafts(sources, count)| >= 2 && HasAmountAndTime(Payloads(clock, Drafts(sources, count))[0])
    requires d in Drafts(sources, count)
    requires var arrivals := Arrivals(clock, Payloads(clock, Drafts(sources, count)), shuffled);
      IdOf(d) in RunLaws.After(gate, rules, [RunInput(runId, arrivals, None)]).accepted
    ensures Serves(gate, d.sourceId)
  {
    hide Agrees, BalancedRules, Holds, SameRaws, Arrivals, IdOf, IngestAll, HasAmountAndTime, RawOf, RunLaws.After, Claims, Sensible;
    hide TransactionDrafts, Representable, Serves, Drafts, Project;
    var drafts := Drafts(sources, count);
    var run := RunInput(runId, Arrivals(clock, Payloads(clock, drafts), shuffled), None);
    OnlyRun(gate, rules, run);
    FirstWriterWins(gate, runId, Opening(EMPTY_DATABASE), run.rawEvents, IdOf(d));
    var raw :| raw in run.rawEvents && Claims(gate, raw, IdOf(d));
    DraftsAre(sources, count);
    forall x | x in drafts ensures Sensible(x) && Representable(x) {
      DraftsAreSensible(sources, count, x);
    }
    FirstDraft(sources, count);
    ClaimedIsServed(gate, clock, drafts, shuffled, raw, d);
  }

  /**
   End to end: for every shuffle of what the generator makes for at least the minimum number of records, a run
   over the arrivals on a fresh store is clean exactly when every generated event's source is a known payment
   source.
   */
  lemma GeneratorEndToEnd(
    gate: Gate, clock: Clock, rules: PostingRules, registry: seq<Source>, minimum: int, shuffle: seq<Raw> -> seq<Raw>, runId: string)
    requires Agrees(gate, clock) && BalancedRules(rules) && Generates(registry, minimum)
    requires var sources := Filter(registry, IsLifecycle);
      var valid := Payloads(clock, Drafts(sources, Transactions(sources, minimum))); SameRaws(shuffle(valid), valid)
    ensures var sources := Filter(registry, IsLifecycle);
      var drafts := Drafts(sources, Transactions(sources, minimum));
      var (arrivals, report) := Generated(clock, sources, minimum, shuffle);
      Clean(gate, clock, drafts, report, runId, RunLaws.After(gate, rules, [RunInput(runId, arrivals, None)]))
      <==> AllServed(gate, drafts)
  {
    hide Agrees, BalancedRules, AllRepresentable, SameRaws, Arrivals, IsLifecycle, HasAmountAndTime, RawOf, Drafts, RunLaws.After;
    hide Payloads, Serves;
    var sources := Filter(registry, IsLifecycle);
    var count := Transactions(sources, minimum);
    AtLeastOneTransaction(sources, minimum);
    PayloadsFit(clock, sources, count);
    FirstDraft(sources, count);
    var drafts := Drafts(sources, count);
    var valid := Payloads(clock, drafts);
    var (arrivals, report) := Generated(clock, sources, minimum, shuffle);
    var db := RunLaws.After(gate, rules, [RunInput(runId, arrivals, None)]);
    if AllServed(gate, drafts) {
      CleanRun(gate, clock, rules, sources, count, shuffle(valid), report, runId);
    }
    if Clean(gate, clock, drafts, report, runId, db) {
      forall d | d in drafts ensures Serves(gate, d.sourceId) {
        AcceptedMeansServed(gate, clock, rules, sources, count, shuffle(valid), runId, d);
      }
    }
  }

  lemma AtLeastOneTransaction(sources: seq<Source>, minimum: nat)
    requires sources != [] && minimum > 0
    ensures Transactions(sources, minimum) >= 1
  {
  }

  lemma HoldsAll(gate: Gate, clock: Clock, drafts: seq<Draft>, tray: Tray)
    requires Holds(gate, clock, drafts, tray)
    ensures |tray.accepted| == |drafts|
    ensures forall d :: d in drafts ==> IdOf(d) in tray.accepted && tray.accepted[IdOf(d)] == EventFor(gate, clock, d)
  {
    hide IdOf, EventFor, UnderId;
    forall d | d in drafts ensures IdOf(d) in tray.accepted && tray.accepted[IdOf(d)] == EventFor(gate, clock, d) {
      HoldsAt(gate, clock, drafts, tray, d);
    }
  }

  // ---- a failing input for "arrival order cannot change the projection" ----

  lemma OnlyOneId(gate: Gate, rules: PostingRules, a: Raw, b: Raw, id: string)
    requires BalancedRules(rules) && Claims(gate, a, id) && Claims(gate, b, id)
    ensures var runs := [RunInput("run", [a] + [b], None)];
      && RunLaws.CommittedRaws(gate, rules, runs) == [a, b]
      && RunLaws.After(gate, rules, runs).accepted == map[id := ValidateEvent(gate, a).value]
  {
    hide ValidateEvent, BalancedRules, RunLaws.After, RunLaws.CommittedRaws, Claims;
    var runs := [RunInput("run", [a] + [b], None)];
    RunLaws.FirstClaimantStays(gate, rules, [b], a, id);
    var accepted := RunLaws.After(gate, rules, runs).accepted;
    OnlyClaimed(gate, rules, runs, a, b, id);
    OneEntry(accepted, id);
  }

  lemma OnlyClaimed(gate: Gate, rules: PostingRules, runs: seq<RunInput>, a: Raw, b: Raw, id: string)
    requires RunLaws.CommittedRaws(gate, rules, runs) == [a] + [b] && Claims(gate, a, id) && Claims(gate, b, id)
    ensures forall other :: other in RunLaws.After(gate, rules, runs).accepted ==> other == id
  {
    hide ValidateEvent, RunLaws.After, RunLaws.CommittedRaws, RunLaws.CameFrom;
    forall other | other in RunLaws.After(gate, rules, runs).accepted ensures other == id {
      RunLaws.AcceptedIsExplained(gate, rules, runs, other);
    }
  }

  lemma OneEntry(accepted: Accepted, id: string)
    requires id in accepted && forall other :: other in accepted ==> other == id
    ensures accepted == map[id := accepted[id]]
  {
  }

  /** Two valid authorizations under one event id that differ in their amounts cannot be swapped unseen. */
  lemma AmountsShow(rules: PostingRules, e: PaymentEvent, f: PaymentEvent)
    requires WellFormed(e) && WellFormed(f) && e.eventId == f.eventId
    requires e.eventType == Authorization && e.transactionVersion == 1 && e.amountMinor != f.amountMinor
    ensures Keyed(map[e.eventId := e]) && Keyed(map[e.eventId := f])
    ensures !OrderLaws.SameContents(Project(map[e.eventId := e], rules), Project(map[e.eventId := f], rules))
  {
    hide WellFormed, Project, OrderLaws.SameContents, Rows, Assess;
    var accepted := map[e.eventId := e];
    assert accepted[e.eventId] == e;
    assert accepted[f.eventId := f] == map[e.eventId := f];
    LoneAuthorizationIsValid(e);
    OrderLaws.VerdictMeans(accepted, e.transactionId);
    OrderLaws.SwapShowsNothingExactly(rules, accepted, f);
  }

  ghost predicate OrderShows(gate: Gate, rules: PostingRules, a: Raw, b: Raw) {
    var first, second := [RunInput("run", [a] + [b], None)], [RunInput("run", [b] + [a], None)];
    && RunLaws.SameElements(RunLaws.CommittedRaws(gate, rules, first), [a, b])
    && RunLaws.SameElements(RunLaws.CommittedRaws(gate, rules, second), [a, b])
    && !OrderLaws.SameContents(RunLaws.After(gate, rules, first).tables, RunLaws.After(gate, rules, second).tables)
    && !OrderLaws.TablesOrderIrrelevant(gate, rules, [a, b])
  }

  /** What a run over two rival claims leaves: the projection of the first. */
  lemma FirstClaimProjects(gate: Gate, rules: PostingRules, a: Raw, b: Raw, id: string)
    requires BalancedRules(rules) && Claims(gate, a, id) && Claims(gate, b, id)
    ensures var runs, alone := [RunInput("run", [a] + [b], None)], map[id := ValidateEvent(gate, a).value];
      && RunLaws.SameElements(RunLaws.CommittedRaws(gate, rules, runs), [a, b])
      && RunLaws.SameElements(RunLaws.CommittedRaws(gate, rules, runs), [b, a])
      && Keyed(alone) && RunLaws.After(gate, rules, runs).tables == Project(alone, rules)
  {
    hide BalancedRules, ValidateEvent, RunLaws.After, RunLaws.CommittedRaws, Project, Postable;
    OnlyOneId(gate, rules, a, b, id);
    RunLaws.TablesMirrorHistory(gate, rules, [RunInput("run", [a] + [b], None)]);
  }

  lemma RivalAmountsShow(gate: Gate, rules: PostingRules, a: Raw, b: Raw, id: string)
    requires BalancedRules(rules) && Claims(gate, a, id) && Claims(gate, b, id)
    requires ValidateEvent(gate, a).value.eventType == Authorization && ValidateEvent(gate, a).value.transactionVersion == 1
    requires ValidateEvent(gate, a).value.amountMinor != ValidateEvent(gate, b).value.amountMinor
    ensures OrderShows(gate, rules, a, b)
  {
    hide BalancedRules, ValidateEvent, RunLaws.After, RunLaws.CommittedRaws, Project, OrderLaws.SameContents, Keyed, WellFormed;
    hide RunLaws.SameElements;
    FirstClaimProjects(gate, rules, a, b, id);
    FirstClaimProjects(gate, rules, b, a, id);
    OrderLaws.ClaimIsWellFormed(gate, a);
    OrderLaws.ClaimIsWellFormed(gate, b);
    AmountsShow(rules, ValidateEvent(gate, a).value, ValidateEvent(gate, b).value);
  }

  lemma ConflictEvents(gate: Gate, clock: Clock, d: Draft)
    requires Agrees(gate, clock) && Sensible(d) && Serves(gate, d.sourceId) && ReceivedSecond(d) + 300 <= LAST_SECOND
    ensures HasAmountAndTime(RawOf(clock, d))
    ensures ValidateEvent(gate, RawOf(clock, d)) == Ok(EventOf(gate, clock, d, ReceivedSecond(d)))
    ensures ValidateEvent(gate, ConflictOf(clock, RawOf(clock, d)))
         == Ok(EventOf(gate, clock, d.(amountMinor := d.amountMinor + 1), ReceivedSecond(d) + 300))
  {
    hide ValidateEvent, Payload, Serves, EventOf;
    ConflictIsPayload(clock, d);
    PayloadIsAdmitted(gate, clock, d, ReceivedSecond(d));
    PayloadIsAdmitted(gate, clock, d.(amountMinor := d.amountMinor + 1), ReceivedSecond(d) + 300);
  }

  /**
   The generator's conflicting copy of an authorization: which of the two arrives first decides what the
   projection tables hold.
   */
  lemma ConflictOrderMatters(gate: Gate, clock: Clock, rules: PostingRules, d: Draft)
    requires Agrees(gate, clock) && BalancedRules(rules) && Sensible(d) && Serves(gate, d.sourceId)
    requires d.eventType == Authorization && d.version == 1 && ReceivedSecond(d) + 300 <= LAST_SECOND
    ensures HasAmountAndTime(RawOf(clock, d))
    ensures OrderShows(gate, rules, RawOf(clock, d), ConflictOf(clock, RawOf(clock, d)))
  {
    hide Agrees, BalancedRules, ValidateEvent, RawOf, ConflictOf, GeneratedId, OrderShows, Serves, ReceivedSecond, HasAmountAndTime;
    ConflictEvents(gate, clock, d);
    RivalAmountsShow(gate, rules, RawOf(clock, d), ConflictOf(clock, RawOf(clock, d)), IdOf(d));
  }
}
