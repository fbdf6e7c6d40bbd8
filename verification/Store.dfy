/**
 The ledger store: one field per table, inserts that check their keys, a rebuild that clears and
 replays, and a run that commits or rolls back.  Every method is proved against the specification.
 */
module Store {
  import opened Wrappers
  import opened Sums
  import opened Contracts
  import opened Ledger
  import opened Lifecycle
  import opened History
  import opened Projection
  import opened Intake
  import opened Settlement
  import opened Runs

  datatype StoreError =
    | DuplicateRun
    | Injected(failpoint: Failpoint)
    | Posting(error: PostingError)
    | IntegrityFailure
    | Died

  datatype Verdict = Verdict(reconciled: bool, exceptionCount: nat, absoluteDelta: int)

  datatype Summary = Summary(
    rawRecords: nat,
    acceptedNew: nat,
    duplicates: nat,
    quarantined: nat,
    rawReconciled: bool,
    unbalancedGroups: nat,
    ledgerBalance: int,
    ledgerBalanced: bool
  )

  // ---- keys of rows still to be inserted ----

  ghost predicate IdsDiffer(rows: seq<PaymentEvent>) {
    forall i, j :: 0 <= i < j < |rows| ==> rows[i].eventId != rows[j].eventId
  }

  lemma RowIdsDiffer(accepted: Accepted, transactionId: string)
    requires Keyed(accepted)
    ensures IdsDiffer(Rows(accepted, transactionId))
  {
    var rows := Rows(accepted, transactionId);
    forall i, j | 0 <= i < j < |rows| ensures rows[i].eventId != rows[j].eventId {
      RowsAreEvents(accepted, transactionId, rows[i]);
      RowsAreEvents(accepted, transactionId, rows[j]);
    }
  }

  /** Tables already hold only rows of transactions other than the one about to be projected. */
  ghost predicate OthersOnly(accepted: Accepted, t: Tables, transactionId: string) {
    && (forall r :: r in t.exceptions ==>
          r.eventId in accepted && accepted[r.eventId].transactionId != transactionId)
    && (forall r :: r in t.posted ==>
          r.eventId in accepted && accepted[r.eventId].transactionId != transactionId)
    && (forall l :: l in t.ledger ==>
          l.eventId in accepted && accepted[l.eventId].transactionId != transactionId
          && exists p: nat :: l.entryId == EntryId(l.eventId, p))
    && (forall r :: r in t.states ==> r.transactionId != transactionId)
  }

  lemma ProjectedOthersOnly(accepted: Accepted, ids: seq<string>, rules: PostingRules, transactionId: string)
    requires Keyed(accepted) && transactionId !in ids
    ensures OthersOnly(accepted, ProjectFirst(accepted, ids, rules), transactionId)
  {
    ProjectFirstRows(accepted, ids, rules);
    var t := ProjectFirst(accepted, ids, rules);
    forall l | l in t.ledger ensures exists p: nat :: l.entryId == EntryId(l.eventId, p) {
      assert IsLine(accepted, rules, l);
      var e := accepted[l.eventId];
      var i :| 0 <= i < |LinesOf(e, rules)| && LinesOf(e, rules)[i] == l;
      assert l.entryId == EntryId(l.eventId, i + 1);
    }
  }

  /** Posting tables after the first events of a transaction, on top of other transactions' rows. */
  lemma PostedPrefixKeys(accepted: Accepted, before: Tables, rows: seq<PaymentEvent>, i: nat, rules: PostingRules)
    requires IdsDiffer(rows) && i < |rows|
    requires forall e :: e in rows ==> e.eventId in accepted && accepted[e.eventId] == e
    requires OthersOnly(accepted, before, rows[i].transactionId)
    ensures var t := Append(before, PostedTables(rows[..i], rules));
      && (forall r :: r in t.posted ==> r.eventId != rows[i].eventId)
      && (forall l :: l in t.ledger ==>
            l.eventId != rows[i].eventId && exists p: nat :: l.entryId == EntryId(l.eventId, p))
  {
    PostedTablesRows(rows[..i], rules);
    var added := PostedTables(rows[..i], rules);
    assert rows[i] in rows;
    assert forall e :: e in rows[..i] ==> e.eventId != rows[i].eventId;
    forall l | l in added.ledger
      ensures l.eventId != rows[i].eventId && exists p: nat :: l.entryId == EntryId(l.eventId, p)
    {
      var e :| e in rows[..i] && l in LinesOf(e, rules);
      var k :| 0 <= k < |LinesOf(e, rules)| && LinesOf(e, rules)[k] == l;
      assert l.entryId == EntryId(l.eventId, k + 1);
    }
  }

  lemma PostedStart(rows: seq<PaymentEvent>, rules: PostingRules)
    ensures PostedTables(rows[..0], rules) == EMPTY_TABLES
  {
  }

  lemma PostedNoOthers(events: seq<PaymentEvent>, rules: PostingRules)
    ensures PostedTables(events, rules).exceptions == [] && PostedTables(events, rules).states == []
  {
    PostedTablesRows(events, rules);
  }

  lemma PostedStep(rows: seq<PaymentEvent>, i: nat, rules: PostingRules)
    requires i < |rows|
    ensures PostedTables(rows[..i + 1], rules) == Append(PostedTables(rows[..i], rules), EventTables(rows[i], rules))
    ensures EventTables(rows[i], rules).exceptions == [] && EventTables(rows[i], rules).states == []
  {
    assert rows[..i + 1][..i] == rows[..i];
  }

  lemma FreshEntry(ledger: seq<PostingLine>, lines: seq<PostingLine>, e: PaymentEvent, rules: PostingRules, k: nat)
    requires lines == LinesOf(e, rules) && k < |lines|
    requires forall l :: l in ledger ==> l.eventId != e.eventId && exists p: nat :: l.entryId == EntryId(l.eventId, p)
    ensures forall l :: l in ledger + lines[..k] ==> l.entryId != lines[k].entryId
  {
    forall l | l in ledger + lines[..k] ensures l.entryId != lines[k].entryId {
      if l in ledger {
        var p: nat :| l.entryId == EntryId(l.eventId, p);
        EntryIdInjective(l.eventId, p, e.eventId, k + 1);
      } else {
        var j :| 0 <= j < k && lines[j] == l;
        EntryIdInjective(e.eventId, j + 1, e.eventId, k + 1);
      }
    }
  }

  class LedgerStore {
    var journal: map<string, RunStatus>
    var outcomes: map<string, Counter>
    var seen: map<string, SeenRow>
    var accepted: Accepted
    var quarantine: seq<QuarantineRow>
    var exceptions: seq<ExceptionRow>
    var posted: seq<PostedRow>
    var ledger: seq<PostingLine>
    var states: seq<PaymentState>
    var settlementActual: Amounts
    var settlementExceptions: map<SettlementKey, Delta>

    constructor ()
      ensures Snapshot() == EMPTY_DATABASE
    {
      journal, outcomes, seen, accepted, quarantine := map[], map[], map[], map[], [];
      exceptions, posted, ledger, states := [], [], [], [];
      settlementActual, settlementExceptions := map[], map[];
    }

    function CurrentTables(): Tables
      reads this
    {
      Tables(exceptions, posted, ledger, states)
    }

    function Snapshot(): (db: Database)
      reads this
      ensures db.journal == journal
    {
      Database(journal, outcomes, seen, accepted, quarantine, CurrentTables(), settlementActual, settlementExceptions)
    }

    /** ROLLBACK to an earlier snapshot. */
    method Restore(db: Database)
      modifies this
      ensures Snapshot() == db
    {
      journal, outcomes, seen, accepted, quarantine :=
        db.journal, db.outcomes, db.seen, db.accepted, db.quarantine;
      exceptions, posted, ledger, states :=
        db.tables.exceptions, db.tables.posted, db.tables.ledger, db.tables.states;
      settlementActual, settlementExceptions := db.settlementActual, db.settlementExceptions;
    }

    method SetStatus(runId: string, status: RunStatus)
      modifies this`journal
      ensures Snapshot() == old(Snapshot()).(journal := old(journal)[runId := status])
    {
      journal := journal[runId := status];
    }

    // ---- inserts: false when a primary or foreign key, or a check, is violated ----

    method InsertAccepted(event: PaymentEvent, identity: Identity, runId: string) returns (ok: bool)
      modifies this`seen, this`accepted
      ensures ok <==> event.eventId !in old(seen) && event.eventId !in old(accepted) && event.amountMinor > 0
      ensures ok ==> seen == old(seen)[event.eventId := SeenRow(identity, runId)]
      ensures ok ==> accepted == old(accepted)[event.eventId := event]
    {
      if event.eventId in seen { return false; }
      seen := seen[event.eventId := SeenRow(identity, runId)];
      if event.eventId in accepted || event.amountMinor <= 0 { return false; }
      accepted := accepted[event.eventId := event];
      ok := true;
    }

    method InsertException(row: ExceptionRow) returns (ok: bool)
      modifies this`exceptions
      ensures ok <==> row.eventId in accepted && forall r :: r in old(exceptions) ==> r.eventId != row.eventId
      ensures exceptions == old(exceptions) + (if ok then [row] else [])
    {
      ok := row.eventId in accepted && forall r | r in exceptions :: r.eventId != row.eventId;
      if ok { exceptions := exceptions + [row]; }
    }

    method InsertPosted(row: PostedRow) returns (ok: bool)
      modifies this`posted
      ensures ok <==> row.eventId in accepted && forall r :: r in old(posted) ==> r.eventId != row.eventId
      ensures posted == old(posted) + (if ok then [row] else [])
    {
      ok := row.eventId in accepted && forall r | r in posted :: r.eventId != row.eventId;
      if ok { posted := posted + [row]; }
    }

    method InsertLine(line: PostingLine) returns (ok: bool)
      modifies this`ledger
      ensures ok <==>
                && (exists r :: r in posted && r.eventId == line.eventId)
                && forall l :: l in old(ledger) ==> l.entryId != line.entryId
      ensures ledger == old(ledger) + (if ok then [line] else [])
    {
      ok := (exists r | r in posted :: r.eventId == line.eventId)
            && forall l | l in ledger :: l.entryId != line.entryId;
      if ok { ledger := ledger + [line]; }
    }

    method InsertState(row: PaymentState) returns (ok: bool)
      modifies this`states
      ensures ok <==> forall r :: r in old(states) ==> r.transactionId != row.transactionId
      ensures states == old(states) + (if ok then [row] else [])
    {
      ok := forall r | r in states :: r.transactionId != row.transactionId;
      if ok { states := states + [row]; }
    }

    // ---- ingest ----

    ghost function CurrentTray(counts: Counter): Tray
      reads this
    {
      Tray(seen, accepted, quarantine, counts)
    }

    method IngestOne(gate: Gate, runId: string, raw: Raw, counts: Counter) returns (after: Counter, ok: bool)
      requires Consistent(gate, seen, accepted)
      modifies this`seen, this`accepted, this`quarantine
      ensures ok
      ensures CurrentTray(after) == Intake.IngestOne(gate, runId, old(CurrentTray(counts)), raw)
      ensures Consistent(gate, seen, accepted)
    {
      hide ValidateEvent, IdentityFingerprint, EventOfIdentity;
      IngestOneKeeps(gate, runId, CurrentTray(counts), raw);
      after, ok := Bump(counts, ARRIVED), true;
      var validated := ValidateEvent(gate, raw);
      if validated.Err? {
        quarantine := quarantine + [QuarantineRow(runId, RawEventId(raw), validated.error, Redact(gate, Object(raw)))];
        after := Bump(after, Refused(validated.error));
        return;
      }
      var event := validated.value;
      IdentityDeterminesEvent(gate, raw);
      var identity := IdentityFingerprint(gate, raw);
      if event.eventId in seen {
        if seen[event.eventId].identity == identity {
          after := Bump(after, REPLAYED);
        } else {
          quarantine := quarantine
                        + [QuarantineRow(runId, Some(event.eventId), IdentityPayloadConflict, Redact(gate, Object(raw)))];
          after := Bump(after, Refused(IdentityPayloadConflict));
        }
        return;
      }
      ok := InsertAccepted(event, identity, runId);
      after := Bump(after, ACCEPTED);
    }

    // ---- rebuild ----

    method RejectTransaction(rows: seq<PaymentEvent>, violation: Violation, ghost transactionId: string)
      returns (ok: bool)
      requires IdsDiffer(rows)
      requires forall e :: e in rows ==>
                 e.eventId in accepted && accepted[e.eventId] == e && e.transactionId == transactionId
      requires OthersOnly(accepted, CurrentTables(), transactionId)
      modifies this`exceptions
      ensures ok
      ensures exceptions == old(exceptions) + Rejected(rows, violation)
    {
      for i := 0 to |rows|
        invariant exceptions == old(exceptions) + Rejected(rows[..i], violation)
      {
        var event := rows[i];
        assert event in rows;
        forall r | r in exceptions ensures r.eventId != event.eventId {
          if r !in old(exceptions) {
            var j :| 0 <= j < i && r == Rejected(rows[..i], violation)[j];
            assert r.eventId == rows[j].eventId;
          }
        }
        var inserted := InsertException(ExceptionRow(event.eventId, event.transactionId, violation));
        if !inserted { return false; }
        assert rows[..i + 1] == rows[..i] + [event];
      }
      assert rows[..|rows|] == rows;
      ok := true;
    }

    method PostEvent(event: PaymentEvent, rules: PostingRules) returns (r: Result<nat, StoreError>)
      requires event.eventId in accepted
      requires forall p :: p in posted ==> p.eventId != event.eventId
      requires forall l :: l in ledger ==>
                 l.eventId != event.eventId && exists p: nat :: l.entryId == EntryId(l.eventId, p)
      modifies this`posted, this`ledger
      ensures r.Ok? <==> EventPostable(event, rules)
      ensures r.Err? ==> r.error.Posting?
      ensures r.Ok? ==> posted == old(posted) + EventTables(event, rules).posted
      ensures r.Ok? ==> ledger == old(ledger) + EventTables(event, rules).ledger
    {
      var built := BuildPostings(event, rules);
      if built.Err? { return Err(Posting(built.error)); }
      var lines := built.value;
      if lines != [] {
        var inserted := InsertPosted(PostedOf(event));
        if !inserted { return Err(IntegrityFailure); }
        assert posted[|posted| - 1].eventId == event.eventId;
      }
      for k := 0 to |lines|
        invariant posted == old(posted) + EventTables(event, rules).posted
        invariant ledger == old(ledger) + lines[..k]
      {
        FreshEntry(old(ledger), lines, event, rules, k);
        assert PostedOf(event) in posted;
        var inserted := InsertLine(lines[k]);
        if !inserted { return Err(IntegrityFailure); }
        assert lines[..k + 1] == lines[..k] + [lines[k]];
      }
      r := Ok(|lines|);
    }

    /** Projects one transaction as a unit; the only possible failure is an unbalanced rule. */
    method ProjectTransaction(rows: seq<PaymentEvent>, rules: PostingRules, ghost transactionId: string)
      returns (r: Result<nat, StoreError>)
      requires Keyed(accepted) && rows == Rows(accepted, transactionId)
      requires OthersOnly(accepted, CurrentTables(), transactionId)
      modifies this`exceptions, this`posted, this`ledger, this`states
      ensures r.Ok? <==> RowsPostable(rows, rules)
      ensures r.Err? ==> r.error.Posting?
      ensures r.Ok? ==> CurrentTables() == Append(old(CurrentTables()), TransactionTables(rows, rules))
    {
      hide Assess, StateOf, Rows, LinesOf, EventPostable;
      if rows == [] { return Ok(0); }
      RowIdsDiffer(accepted, transactionId);
      forall e ensures e in rows ==>
                         e.eventId in accepted && accepted[e.eventId] == e && e.transactionId == transactionId
      {
        RowsAreEvents(accepted, transactionId, e);
      }
      var reason := Assess(rows);
      if reason.Some? {
        var rejected := RejectTransaction(rows, reason.value, transactionId);
        if !rejected { return Err(IntegrityFailure); }
        return Ok(|rows|);
      }
      var postedAll := PostRows(rows, rules, transactionId);
      if postedAll.Err? { return postedAll; }
      StateTransaction(accepted, transactionId);
      var stated := InsertState(StateOf(rows));
      if !stated { return Err(IntegrityFailure); }
      r := Ok(|rows|);
    }

    method PostRows(rows: seq<PaymentEvent>, rules: PostingRules, ghost transactionId: string)
      returns (r: Result<nat, StoreError>)
      requires IdsDiffer(rows)
      requires forall e :: e in rows ==>
                 e.eventId in accepted && accepted[e.eventId] == e && e.transactionId == transactionId
      requires OthersOnly(accepted, CurrentTables(), transactionId)
      modifies this`posted, this`ledger
      ensures r.Ok? <==> forall e :: e in rows ==> EventPostable(e, rules)
      ensures r.Err? ==> r.error.Posting?
      ensures r.Ok? ==> CurrentTables() == Append(old(CurrentTables()), PostedTables(rows, rules))
    {
      hide LinesOf, OthersOnly, EventPostable, PostedTables, EventTables;
      ghost var before := CurrentTables();
      PostedStart(rows, rules);
      for i := 0 to |rows|
        invariant exceptions == before.exceptions && states == before.states
        invariant posted == before.posted + PostedTables(rows[..i], rules).posted
        invariant ledger == before.ledger + PostedTables(rows[..i], rules).ledger
        invariant forall j :: 0 <= j < i ==> EventPostable(rows[j], rules)
      {
        assert rows[i] in rows;
        PostedPrefixKeys(accepted, before, rows, i, rules);
        var one := PostEvent(rows[i], rules);
        if one.Err? { return Err(one.error); }
        PostedStep(rows, i, rules);
      }
      assert rows[..|rows|] == rows;
      PostedNoOthers(rows, rules);
      r := Ok(|rows|);
    }

    /** Clears every projection and replays all accepted history, transaction by transaction. */
    method RebuildProjections(rules: PostingRules) returns (r: Result<nat, StoreError>)
      requires Keyed(accepted)
      modifies this`exceptions, this`posted, this`ledger, this`states,
               this`settlementActual, this`settlementExceptions
      ensures r.Ok? <==> Postable(accepted, TransactionIds(accepted), rules)
      ensures r.Err? ==> r.error.Posting?
      ensures r.Ok? ==> CurrentTables() == Project(accepted, rules)
      ensures settlementActual == map[] && settlementExceptions == map[]
    {
      hide TransactionTables, Rows, RowsPostable, TransactionIds;
      settlementExceptions := map[];
      settlementActual := map[];
      ledger := [];
      posted := [];
      exceptions := [];
      states := [];
      var ids := TransactionIds(accepted);
      for k := 0 to |ids|
        invariant CurrentTables() == ProjectFirst(accepted, ids[..k], rules)
        invariant Postable(accepted, ids[..k], rules)
        invariant settlementActual == map[] && settlementExceptions == map[]
      {
        assert ids[k] in ids && ids[k] !in ids[..k];
        ProjectedOthersOnly(accepted, ids[..k], rules, ids[k]);
        var one := ProjectTransaction(Rows(accepted, ids[k]), rules, ids[k]);
        if one.Err? { return Err(one.error); }
        assert ids[..k + 1][..k] == ids[..k];
      }
      assert ids[..|ids|] == ids;
      r := Ok(|ids|);
    }

    // ---- a run ----

    /** One run; when the process dies there is no result, and what is on disk is what was committed. */
    method Process(gate: Gate, rules: PostingRules, run: RunInput) returns (r: Result<Counter, StoreError>)
      requires Sound(gate, Snapshot())
      modifies this
      ensures Snapshot() == ProcessRun(gate, rules, old(Snapshot()), run)
      ensures Sound(gate, Snapshot())
      ensures r.Ok? <==> Completes(gate, rules, old(Snapshot()), run) && run.death.Survives?
      ensures r.Err? ==> !r.error.IntegrityFailure?
      ensures r.Ok? ==> r.value == Ingested(gate, old(Snapshot()), run).counts
    {
      hide IngestAll, Sound, Project, Completes, Committed, Ingested, ProcessRun, Commits, Snapshot;
      ghost var start := Snapshot();
      ProcessRunSound(gate, rules, start, run);
      RunOutcome(gate, rules, start, run);
      CommittedJournal(gate, rules, start, run);
      if run.runId in journal { return Err(DuplicateRun); }
      SetStatus(run.runId, Started);
      var saved := Snapshot();
      r := Attempt(gate, rules, run, start);
      if run.death.DiesBeforeCommit? {
        Restore(saved);
        return Err(Died);
      }
      if r.Err? {
        Restore(saved);
        SetStatus(run.runId, Failed);
        return;
      }
      if run.death.DiesAfterCommit? { return Err(Died); }
      SetStatus(run.runId, Succeeded);
    }

    /** The body of the transaction, between BEGIN and COMMIT. */
    method Attempt(gate: Gate, rules: PostingRules, run: RunInput, ghost start: Database)
      returns (r: Result<Counter, StoreError>)
      requires Sound(gate, start)
      requires run.runId !in start.journal
      requires Snapshot() == start.(journal := start.journal[run.runId := Started])
      modifies this
      ensures journal == old(journal)
      ensures r.Ok? <==> Completes(gate, rules, start, run)
      ensures r.Ok? ==> Snapshot() == Committed(gate, rules, start, run).(journal := old(journal))
      ensures r.Err? ==> !r.error.IntegrityFailure?
      ensures r.Ok? ==> r.value == Ingested(gate, start, run).counts
    {
      hide ValidateEvent, IdentityFingerprint, EventOfIdentity, Intake.IngestOne, Project, Postable, TransactionIds;
      var counts: Counter := map[];
      var raws := run.rawEvents;
      for i := 0 to |raws|
        invariant Consistent(gate, seen, accepted)
        invariant CurrentTray(counts) == IngestAll(gate, run.runId, Opening(start), raws[..i])
        invariant journal == old(journal) && outcomes == old(outcomes)
      {
        var ok;
        counts, ok := IngestOne(gate, run.runId, raws[i], counts);
        if !ok { return Err(IntegrityFailure); }
        assert raws[..i + 1][..i] == raws[..i];
      }
      assert raws[..|raws|] == raws;
      if run.failpoint.Some? && run.failpoint.value.AfterIdentityGate? { return Err(Injected(AfterIdentityGate)); }
      var rebuilt := RebuildProjections(rules);
      if rebuilt.Err? { return Err(rebuilt.error); }
      if run.failpoint.Some? && run.failpoint.value.BeforeCommit? { return Err(Injected(BeforeCommit)); }
      outcomes := outcomes[run.runId := counts];
      r := Ok(counts);
    }

    // ---- settlement ----

    /** Replaces the evidence and the recorded differences; repeated evidence keys fail and change nothing. */
    method ReconcileSettlement(actual: seq<ActualRow>) returns (r: Result<Verdict, StoreError>)
      modifies this`settlementActual, this`settlementExceptions
      ensures r.Ok? <==> DistinctKeys(actual)
      ensures r.Err? ==> Snapshot() == old(Snapshot())
      ensures r.Ok? ==>
                var expected := ExpectedSettlement(posted);
                && (forall key :: key in settlementActual <==> exists i :: 0 <= i < |actual| && actual[i].key == key)
                && (forall i :: 0 <= i < |actual| ==> settlementActual[actual[i].key] == actual[i].amountMinor)
                && Records(settlementExceptions, expected, actual)
                && r.value.exceptionCount == |settlementExceptions|
                && r.value.absoluteDelta == AbsoluteDelta(settlementExceptions)
                && (r.value.reconciled <==> Agrees(expected, actual))
      ensures Snapshot() == Reconciled(old(Snapshot()), actual)
    {
      hide Records, Agrees, ExpectedSettlement, Deltas, ActualAmounts, DistinctKeys, AbsoluteDelta;
      var savedActual, savedExceptions := settlementActual, settlementExceptions;
      settlementExceptions := map[];
      var ok := InsertEvidence(actual);
      if !ok {
        settlementActual, settlementExceptions := savedActual, savedExceptions;
        return Err(IntegrityFailure);
      }
      var expected := ExpectedSettlement(posted);
      var absolute := CompareAll(expected);
      DeltasExplain(expected, settlementActual);
      ActualKeys(actual);
      ActualHolds(actual);
      ComparisonIsExact(expected, actual);
      r := Ok(Verdict(|settlementExceptions| == 0, |settlementExceptions|, absolute));
    }

    /** Replaces the evidence row by row; false when a key repeats. */
    method InsertEvidence(actual: seq<ActualRow>) returns (ok: bool)
      modifies this`settlementActual
      ensures ok <==> DistinctKeys(actual)
      ensures ok ==> settlementActual == ActualAmounts(actual)
    {
      settlementActual := map[];
      for i := 0 to |actual|
        invariant settlementActual == ActualAmounts(actual[..i])
        invariant DistinctKeys(actual[..i])
      {
        ActualKeys(actual[..i]);
        if actual[i].key in settlementActual { return false; }
        settlementActual := settlementActual[actual[i].key := actual[i].amountMinor];
        assert actual[..i + 1][..i] == actual[..i];
      }
      assert actual[..|actual|] == actual;
      ok := true;
    }

    /** Visits every key of either side once, recording each difference and its absolute value. */
    method CompareAll(expected: Amounts) returns (absolute: int)
      requires settlementExceptions == map[]
      modifies this`settlementExceptions
      ensures settlementExceptions == Deltas(expected, settlementActual)
      ensures absolute == AbsoluteDelta(settlementExceptions)
    {
      hide Deltas, Abs, AbsoluteDelta, At;
      var pending := expected.Keys + settlementActual.Keys;
      ghost var target := Deltas(expected, settlementActual);
      absolute := 0;
      NoDeltaYet();
      DeltaKeys(expected, settlementActual);
      while pending != {}
        invariant pending <= expected.Keys + settlementActual.Keys
        invariant forall key :: key in settlementExceptions <==> key in target && key !in pending
        invariant forall key :: key in settlementExceptions ==> settlementExceptions[key] == target[key]
        invariant absolute == AbsoluteDelta(settlementExceptions)
        decreases |pending|
      {
        var key :| key in pending;
        var delta := At(expected, key) - At(settlementActual, key);
        DeltaAtKey(expected, settlementActual, key);
        if delta != 0 {
          DeltaAdded(settlementExceptions, key, Delta(At(expected, key), At(settlementActual, key), delta));
          settlementExceptions :=
            settlementExceptions[key := Delta(At(expected, key), At(settlementActual, key), delta)];
          absolute := absolute + Abs(delta);
        }
        pending := pending - {key};
      }
      assert settlementExceptions == target;
    }

    // ---- summary ----

    /** The outcomes recorded for a run; none for an unknown, failed or unfinished one. */
    function OutcomesOf(runId: string): Counter
      reads this
    {
      if runId in outcomes then outcomes[runId] else map[]
    }

    /** Re-derives the run's record balance and the ledger's money balance from the tables. */
    method Summarize(runId: string) returns (s: Summary)
      ensures s.rawRecords == Total(OutcomesOf(runId), Arrival)
      ensures s.acceptedNew == Total(OutcomesOf(runId), AcceptedNew)
      ensures s.duplicates == Total(OutcomesOf(runId), Duplicate)
      ensures s.quarantined == Total(OutcomesOf(runId), Quarantined)
      ensures runId !in outcomes ==> s.rawRecords == 0 && s.acceptedNew == 0 && s.duplicates == 0 && s.quarantined == 0
      ensures s.rawReconciled <==> s.rawRecords == s.acceptedNew + s.duplicates + s.quarantined
      ensures s.unbalancedGroups == |UnbalancedIn(ledger)|
      ensures s.ledgerBalance == SumSeq(ledger, Signed)
      ensures s.ledgerBalanced <==> Balanced(ledger) && SumSeq(ledger, Signed) == 0
    {
      var counts := OutcomesOf(runId);
      var raw := CountOutcome(counts, Arrival);
      var acceptedNew := CountOutcome(counts, AcceptedNew);
      var duplicates := CountOutcome(counts, Duplicate);
      var quarantined := CountOutcome(counts, Quarantined);
      var unbalanced := set l | l in ledger && GroupSum(ledger, l.eventId, l.currency) != 0 :: (l.eventId, l.currency);
      UnbalancedGroups(ledger, unbalanced);
      assert unbalanced == UnbalancedIn(ledger);
      var balance := SumSeq(ledger, Signed);
      s := Summary(raw, acceptedNew, duplicates, quarantined, raw == acceptedNew + duplicates + quarantined,
                   |unbalanced|, balance, |unbalanced| == 0 && balance == 0);
    }
  }

  method CountOutcome(counts: Counter, outcome: Outcome) returns (n: nat)
    ensures n == Total(counts, outcome)
  {
    var pending := counts.Keys;
    n := 0;
    while pending != {}
      invariant pending <= counts.Keys
      invariant n + Sum(pending, CountOf(counts, outcome)) == Total(counts, outcome)
      decreases |pending|
    {
      var key :| key in pending;
      SumRemove(pending, CountOf(counts, outcome), key);
      if key.outcome == outcome { n := n + counts[key]; }
      pending := pending - {key};
    }
  }

  lemma NoDeltaYet()
    ensures AbsoluteDelta(map[]) == 0
  {
  }

  lemma DeltaKeys(expected: Amounts, actual: Amounts)
    ensures Deltas(expected, actual).Keys <= expected.Keys + actual.Keys
  {
  }

  lemma DeltaAtKey(expected: Amounts, actual: Amounts, key: SettlementKey)
    requires key in expected.Keys + actual.Keys
    ensures key in Deltas(expected, actual) <==> At(expected, key) - At(actual, key) != 0
    ensures key in Deltas(expected, actual) ==>
              Deltas(expected, actual)[key]
              == Delta(At(expected, key), At(actual, key), At(expected, key) - At(actual, key))
  {
  }

  lemma DeltaAdded(before: map<SettlementKey, Delta>, key: SettlementKey, delta: Delta)
    requires key !in before
    ensures AbsoluteDelta(before[key := delta]) == AbsoluteDelta(before) + Abs(delta.deltaMinor)
  {
    var after := before[key := delta];
    assert after.Keys == before.Keys + {key};
    SumInsert(before.Keys, AbsDeltaAt(after), key);
    SumCong(before.Keys, AbsDeltaAt(after), AbsDeltaAt(before));
  }

  /** The event and currency of every posting group that occurs and does not sum to zero. */
  ghost function UnbalancedIn(ledger: seq<PostingLine>): set<(string, string)> {
    set i | 0 <= i < |ledger| && GroupSum(ledger, ledger[i].eventId, ledger[i].currency) != 0
      :: (ledger[i].eventId, ledger[i].currency)
  }

  lemma UnbalancedGroups(ledger: seq<PostingLine>, groups: set<(string, string)>)
    requires groups == set l | l in ledger && GroupSum(ledger, l.eventId, l.currency) != 0 :: (l.eventId, l.currency)
    ensures groups == {} <==> Balanced(ledger)
  {
    forall eventId, currency | (eventId, currency) !in groups ensures GroupSum(ledger, eventId, currency) == 0 {
      if forall l :: l in ledger ==> !(l.eventId == eventId && l.currency == currency) {
        SumSeqZero(ledger, GroupPart(eventId, currency));
      }
    }
    if groups != {} {
      var g :| g in groups;
      assert GroupSum(ledger, g.0, g.1) != 0;
    }
  }
}
