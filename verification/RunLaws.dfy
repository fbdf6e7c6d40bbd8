/**
 Laws over whole sequences of runs: the projections always mirror the accepted history, arrival order
 and batching do not matter, replay has no second effect, and every record and event is accounted for.
 */
module RunLaws {
  import opened Wrappers
  import opened Sums
  import opened Contracts
  import opened Ledger
  import opened History
  import opened Projection
  import opened Intake
  import opened Runs

  /** The database after a sequence of runs on a fresh store. */
  ghost function After(gate: Gate, rules: PostingRules, runs: seq<RunInput>): (db: Database)
    ensures Sound(gate, db)
  {
    if runs == [] then EMPTY_DATABASE
    else
      var before := After(gate, rules, runs[..|runs| - 1]);
      ProcessRunSound(gate, rules, before, runs[|runs| - 1]);
      ProcessRun(gate, rules, before, runs[|runs| - 1])
  }

  /** The raw events of those runs that committed, in order. */
  ghost function CommittedRaws(gate: Gate, rules: PostingRules, runs: seq<RunInput>): seq<Raw> {
    if runs == [] then []
    else
      var front, last := runs[..|runs| - 1], runs[|runs| - 1];
      CommittedRaws(gate, rules, front)
      + (if Commits(gate, rules, After(gate, rules, front), last) then last.rawEvents else [])
  }

  /** With balanced rules, only a repeated run id, an injected fault or a death keeps a run from committing. */
  lemma BalancedRulesCommit(gate: Gate, rules: PostingRules, db: Database, run: RunInput)
    requires Sound(gate, db) && BalancedRules(rules)
    ensures Commits(gate, rules, db, run)
       <==> run.runId !in db.journal && run.failpoint.None? && !run.death.DiesBeforeCommit?
  {
    IngestAllKeeps(gate, run.runId, Opening(db), run.rawEvents);
    var accepted := Ingested(gate, db, run).accepted;
    BalancedRulesArePostable(accepted, TransactionIds(accepted), rules);
  }

  // ---- tables mirror history ----

  lemma EmptyProjection(rules: PostingRules)
    ensures Project(map[], rules) == EMPTY_TABLES
    ensures TransactionIds(map[]) == []
  {
    var ids := TransactionIds(map[]);
    assert forall id :: id in ids <==> id in TransactionSet(map[]);
  }

  lemma {:induction false} TablesMirrorHistory(gate: Gate, rules: PostingRules, runs: seq<RunInput>)
    ensures var db := After(gate, rules, runs);
      && db.tables == Project(db.accepted, rules)
      && Postable(db.accepted, TransactionIds(db.accepted), rules)
  {
    hide Project, Postable, TransactionIds, IngestAll, Consistent;
    if runs == [] {
      EmptyProjection(rules);
      EmptyPostable(rules);
    } else {
      TablesMirrorHistory(gate, rules, runs[..|runs| - 1]);
    }
  }

  lemma EmptyPostable(rules: PostingRules)
    ensures Postable(map[], TransactionIds(map[]), rules)
  {
    EmptyProjection(rules);
  }

  // ---- where accepted events come from ----

  ghost predicate CameFrom(gate: Gate, db: Database, raw: Raw, id: string) {
    && Claims(gate, raw, id)
    && id in db.accepted && id in db.seen
    && db.accepted[id] == ValidateEvent(gate, raw).value
    && db.seen[id].identity == IdentityFingerprint(gate, raw)
  }

  ghost predicate Explained(gate: Gate, db: Database, raws: seq<Raw>, id: string) {
    && (id in db.accepted <==> exists raw :: raw in raws && Claims(gate, raw, id))
    && (id in db.accepted ==> exists raw :: raw in raws && CameFrom(gate, db, raw, id))
  }

  /** Accepted ids are exactly those claimed by a committed raw event, each with a claimant's content. */
  lemma {:induction false} AcceptedIsExplained(gate: Gate, rules: PostingRules, runs: seq<RunInput>, id: string)
    ensures Explained(gate, After(gate, rules, runs), CommittedRaws(gate, rules, runs), id)
  {
    hide ValidateEvent, IdentityFingerprint, Consistent, Postable, Project, IngestAll;
    if runs != [] {
      var front, last := runs[..|runs| - 1], runs[|runs| - 1];
      AcceptedIsExplained(gate, rules, front, id);
      var before, after := After(gate, rules, front), After(gate, rules, runs);
      if Commits(gate, rules, before, last) {
        CommitExplains(gate, rules, before, last, CommittedRaws(gate, rules, front), id);
      } else {
        assert CommittedRaws(gate, rules, runs) == CommittedRaws(gate, rules, front);
        assert forall raw :: CameFrom(gate, before, raw, id) ==> CameFrom(gate, after, raw, id);
      }
    }
  }

  lemma CommitExplains(gate: Gate, rules: PostingRules, db: Database, run: RunInput, earlier: seq<Raw>, id: string)
    requires Sound(gate, db) && Commits(gate, rules, db, run)
    requires Explained(gate, db, earlier, id)
    ensures Explained(gate, Committed(gate, rules, db, run), earlier + run.rawEvents, id)
  {
    hide ValidateEvent, IdentityFingerprint, Postable, Project, IngestAll, EventOfIdentity, WellFormed;
    var after := Committed(gate, rules, db, run);
    var raws := earlier + run.rawEvents;
    IngestAllGrows(gate, run.runId, Opening(db), run.rawEvents);
    if id in db.accepted {
      var raw :| raw in earlier && CameFrom(gate, db, raw, id);
      assert raw in raws && CameFrom(gate, after, raw, id);
    } else {
      FirstWriterWins(gate, run.runId, Opening(db), run.rawEvents, id);
      if id in after.accepted {
        var i: nat :| FirstClaim(gate, run.rawEvents, i, id);
        assert run.rawEvents[i] in raws && CameFrom(gate, after, run.rawEvents[i], id);
      }
    }
  }

  // ---- confluence ----

  /** No two valid raw events share an event id with different identities. */
  ghost predicate ConflictFree(gate: Gate, raws: seq<Raw>) {
    forall a, b, id :: a in raws && b in raws && Claims(gate, a, id) && Claims(gate, b, id) ==>
      IdentityFingerprint(gate, a) == IdentityFingerprint(gate, b)
  }

  /** The weaker condition that matters: rival claims of one event id agree on everything but delivery. */
  ghost predicate NoRivals(gate: Gate, raws: seq<Raw>) {
    forall a, b, id :: a in raws && b in raws && Claims(gate, a, id) && Claims(gate, b, id) ==>
      Business(ValidateEvent(gate, a).value) == Business(ValidateEvent(gate, b).value)
  }

  /** Weaker still: rival claims agree on everything that the projections read. */
  ghost predicate RivalsProjectAlike(gate: Gate, raws: seq<Raw>) {
    forall a, b, id :: a in raws && b in raws && Claims(gate, a, id) && Claims(gate, b, id) ==>
      Projected(ValidateEvent(gate, a).value) == Projected(ValidateEvent(gate, b).value)
  }

  lemma ConflictFreeHasNoRivals(gate: Gate, raws: seq<Raw>)
    requires ConflictFree(gate, raws)
    ensures NoRivals(gate, raws)
  {
    hide ValidateEvent, IdentityFingerprint, Business;
    forall a, b, id | a in raws && b in raws && Claims(gate, a, id) && Claims(gate, b, id)
      ensures Business(ValidateEvent(gate, a).value) == Business(ValidateEvent(gate, b).value)
    {
      EqualIdentityEqualEvent(gate, a, b);
    }
  }

  lemma NoRivalsProjectAlike(gate: Gate, raws: seq<Raw>)
    requires NoRivals(gate, raws)
    ensures RivalsProjectAlike(gate, raws)
  {
    hide ValidateEvent, Business, Projected;
    forall e: PaymentEvent ensures Projected(Business(e)) == Projected(e) {
      ProjectedOfBusiness(e);
    }
  }

  lemma ProjectedOfBusiness(e: PaymentEvent)
    ensures Projected(Business(e)) == Projected(e)
  {
  }

  ghost predicate SameElements(a: seq<Raw>, b: seq<Raw>) {
    forall raw :: raw in a <==> raw in b
  }

  /** Both histories accepted the id, or neither did; each holds the content of a claim among the raw events. */
  lemma SameOrigin(gate: Gate, rules: PostingRules, first: seq<RunInput>, second: seq<RunInput>, id: string)
    requires SameElements(CommittedRaws(gate, rules, first), CommittedRaws(gate, rules, second))
    ensures var a, b := After(gate, rules, first).accepted, After(gate, rules, second).accepted;
      && (id in a <==> id in b)
      && (id in a ==> exists left, right ::
            && left in CommittedRaws(gate, rules, first) && Claims(gate, left, id) && a[id] == ValidateEvent(gate, left).value
            && right in CommittedRaws(gate, rules, first) && Claims(gate, right, id) && b[id] == ValidateEvent(gate, right).value)
  {
    hide ValidateEvent, IdentityFingerprint, After, CommittedRaws;
    AcceptedIsExplained(gate, rules, first, id);
    AcceptedIsExplained(gate, rules, second, id);
    var a, b := After(gate, rules, first), After(gate, rules, second);
    if id in a.accepted {
      var left :| left in CommittedRaws(gate, rules, first) && CameFrom(gate, a, left, id);
      var right :| right in CommittedRaws(gate, rules, second) && CameFrom(gate, b, right, id);
      assert right in CommittedRaws(gate, rules, first);
    }
  }

  lemma SameAccepted(gate: Gate, rules: PostingRules, first: seq<RunInput>, second: seq<RunInput>)
    requires SameElements(CommittedRaws(gate, rules, first), CommittedRaws(gate, rules, second))
    requires NoRivals(gate, CommittedRaws(gate, rules, first))
    ensures SameBusiness(After(gate, rules, first).accepted, After(gate, rules, second).accepted)
  {
    hide After, CommittedRaws, Business, SameElements, Sound, Consistent, ValidateEvent;
    var a, b := After(gate, rules, first).accepted, After(gate, rules, second).accepted;
    forall id ensures (id in a <==> id in b) && (id in a ==> Business(a[id]) == Business(b[id])) {
      SameOrigin(gate, rules, first, second, id);
    }
    assert a.Keys == b.Keys;
  }

  lemma SameReadings(gate: Gate, rules: PostingRules, first: seq<RunInput>, second: seq<RunInput>)
    requires SameElements(CommittedRaws(gate, rules, first), CommittedRaws(gate, rules, second))
    requires RivalsProjectAlike(gate, CommittedRaws(gate, rules, first))
    ensures SameProjected(After(gate, rules, first).accepted, After(gate, rules, second).accepted)
  {
    hide After, CommittedRaws, Projected, SameElements, Sound, Consistent, ValidateEvent;
    var a, b := After(gate, rules, first).accepted, After(gate, rules, second).accepted;
    forall id ensures (id in a <==> id in b) && (id in a ==> Projected(a[id]) == Projected(b[id])) {
      SameOrigin(gate, rules, first, second, id);
    }
    assert a.Keys == b.Keys;
  }

  /**
   Confluence: however raw events are permuted, duplicated and split into committing runs, and whatever failing
   runs are interleaved, the projections end the same, row for row, provided that rival claims of one event id
   agree on what projections read.  If rivals agree on all but delivery, so does the accepted history.
   */
  lemma Confluence(gate: Gate, rules: PostingRules, first: seq<RunInput>, second: seq<RunInput>)
    requires SameElements(CommittedRaws(gate, rules, first), CommittedRaws(gate, rules, second))
    requires RivalsProjectAlike(gate, CommittedRaws(gate, rules, first))
    ensures After(gate, rules, first).tables == After(gate, rules, second).tables
    ensures NoRivals(gate, CommittedRaws(gate, rules, first)) ==>
              SameBusiness(After(gate, rules, first).accepted, After(gate, rules, second).accepted)
  {
    hide After, CommittedRaws, SameBusiness, SameProjected, Project, Postable, SameElements, NoRivals, RivalsProjectAlike, Consistent;
    SameReadings(gate, rules, first, second);
    TablesMirrorHistory(gate, rules, first);
    TablesMirrorHistory(gate, rules, second);
    SoundIsKeyed(gate, After(gate, rules, first));
    SoundIsKeyed(gate, After(gate, rules, second));
    ProjectionIgnoresProvenance(After(gate, rules, first).accepted, After(gate, rules, second).accepted, rules);
    if NoRivals(gate, CommittedRaws(gate, rules, first)) {
      SameAccepted(gate, rules, first, second);
    }
  }

  lemma FirstClaimantStays(gate: Gate, rules: PostingRules, raws: seq<Raw>, a: Raw, id: string)
    requires BalancedRules(rules) && Claims(gate, a, id)
    ensures var runs := [RunInput("run", [a] + raws, None)];
      && CommittedRaws(gate, rules, runs) == [a] + raws
      && id in After(gate, rules, runs).accepted
      && After(gate, rules, runs).accepted[id] == ValidateEvent(gate, a).value
  {
    hide ValidateEvent, IngestAll, Postable, Project, BalancedRules, EventOfIdentity;
    var run := RunInput("run", [a] + raws, None);
    assert [run][..0] == [] && After(gate, rules, []) == EMPTY_DATABASE;
    BalancedRulesCommit(gate, rules, EMPTY_DATABASE, run);
    assert Commits(gate, rules, EMPTY_DATABASE, run);
    assert CommittedRaws(gate, rules, [run]) == CommittedRaws(gate, rules, []) + run.rawEvents;
    FirstWriterWins(gate, run.runId, Opening(EMPTY_DATABASE), run.rawEvents, id);
    assert FirstClaim(gate, run.rawEvents, 0, id);
  }

  ghost predicate HistoryOrderIrrelevant(gate: Gate, rules: PostingRules, raws: seq<Raw>) {
    forall first, second ::
      SameElements(CommittedRaws(gate, rules, first), raws) && SameElements(CommittedRaws(gate, rules, second), raws)
      ==> SameBusiness(After(gate, rules, first).accepted, After(gate, rules, second).accepted)
  }

  lemma RivalsMakeOrderMatter(gate: Gate, rules: PostingRules, raws: seq<Raw>, a: Raw, b: Raw, id: string)
    requires BalancedRules(rules)
    requires a in raws && b in raws && Claims(gate, a, id) && Claims(gate, b, id)
    requires Business(ValidateEvent(gate, a).value) != Business(ValidateEvent(gate, b).value)
    ensures !HistoryOrderIrrelevant(gate, rules, raws)
  {
    hide ValidateEvent, After, CommittedRaws, Business, BalancedRules, Sound, Consistent;
    FirstClaimantStays(gate, rules, raws, a, id);
    FirstClaimantStays(gate, rules, raws, b, id);
    var first, second := [RunInput("run", [a] + raws, None)], [RunInput("run", [b] + raws, None)];
    assert SameElements([a] + raws, raws) && SameElements([b] + raws, raws);
    assert !SameBusiness(After(gate, rules, first).accepted, After(gate, rules, second).accepted);
  }

  /** Arrival order is irrelevant to the accepted history exactly when no rival claims differ in more than delivery. */
  lemma HistoryOrderIrrelevantExactly(gate: Gate, rules: PostingRules, raws: seq<Raw>)
    requires BalancedRules(rules)
    ensures HistoryOrderIrrelevant(gate, rules, raws) <==> NoRivals(gate, raws)
  {
    hide ValidateEvent, Business, BalancedRules, HistoryOrderIrrelevant;
    if NoRivals(gate, raws) {
      NoRivalsHistoryIrrelevant(gate, rules, raws);
    } else {
      var a, b, id :| a in raws && b in raws && Claims(gate, a, id) && Claims(gate, b, id)
        && Business(ValidateEvent(gate, a).value) != Business(ValidateEvent(gate, b).value);
      RivalsMakeOrderMatter(gate, rules, raws, a, b, id);
    }
  }

  lemma NoRivalsHistoryIrrelevant(gate: Gate, rules: PostingRules, raws: seq<Raw>)
    requires NoRivals(gate, raws)
    ensures HistoryOrderIrrelevant(gate, rules, raws)
  {
    hide ValidateEvent, After, CommittedRaws, Business, Sound, Consistent, SameBusiness;
    forall first, second |
      SameElements(CommittedRaws(gate, rules, first), raws) && SameElements(CommittedRaws(gate, rules, second), raws)
      ensures SameBusiness(After(gate, rules, first).accepted, After(gate, rules, second).accepted)
    {
      assert SameElements(CommittedRaws(gate, rules, first), CommittedRaws(gate, rules, second));
      assert NoRivals(gate, CommittedRaws(gate, rules, first));
      SameAccepted(gate, rules, first, second);
    }
  }

  lemma SoundIsKeyed(gate: Gate, db: Database)
    requires Sound(gate, db)
    ensures Keyed(db.accepted) && db.seen.Keys == db.accepted.Keys
  {
  }

  // ---- replay ----

  lemma CommittedIsSeen(gate: Gate, rules: PostingRules, runs: seq<RunInput>, raws: seq<Raw>)
    requires forall raw :: raw in raws ==> raw in CommittedRaws(gate, rules, runs)
    ensures AllSeen(gate, After(gate, rules, runs).seen, raws)
  {
    hide ValidateEvent, After, CommittedRaws, Consistent;
    var db := After(gate, rules, runs);
    SoundIsKeyed(gate, db);
    forall raw | raw in raws && ValidateEvent(gate, raw).Ok?
      ensures ValidateEvent(gate, raw).value.eventId in db.seen
    {
      var id := ValidateEvent(gate, raw).value.eventId;
      assert Claims(gate, raw, id);
      AcceptedIsExplained(gate, rules, runs, id);
    }
  }

  /** A run over raw events that committed before, in any order and number, has no second effect. */
  lemma ReplayHasNoSecondEffect(gate: Gate, rules: PostingRules, runs: seq<RunInput>, replay: RunInput)
    requires forall raw :: raw in replay.rawEvents ==> raw in CommittedRaws(gate, rules, runs)
    ensures var before, after := After(gate, rules, runs), After(gate, rules, runs + [replay]);
      && after.accepted == before.accepted && after.seen == before.seen && after.tables == before.tables
      && (Commits(gate, rules, before, replay) ==>
            && replay.runId in after.outcomes
            && Total(after.outcomes[replay.runId], AcceptedNew) == 0)
  {
    hide AllSeen, Project, Postable, IngestAll, CommittedRaws, Total, Consistent;
    var before := After(gate, rules, runs);
    assert (runs + [replay])[..|runs|] == runs;
    CommittedIsSeen(gate, rules, runs, replay.rawEvents);
    ReplayAddsNothing(gate, replay.runId, Opening(before), replay.rawEvents);
    TablesMirrorHistory(gate, rules, runs);
    SoundIsKeyed(gate, before);
    ArrivalsAreClassified(gate, replay.runId, Opening(before), replay.rawEvents);
    EmptyTotals();
  }

  lemma EmptyTotals()
    ensures forall o :: Total(map[], o) == 0
  {
  }

  // ---- conservation of records ----

  ghost function RunTotal(outcomes: map<string, Counter>, outcome: Outcome): string -> int {
    (runId: string) => if runId in outcomes then Total(outcomes[runId], outcome) else 0
  }

  ghost function GrandTotal(outcomes: map<string, Counter>, outcome: Outcome): int {
    Sum(outcomes.Keys, RunTotal(outcomes, outcome))
  }

  lemma GrandTotalAdd(outcomes: map<string, Counter>, runId: string, counts: Counter, outcome: Outcome)
    requires runId !in outcomes
    ensures GrandTotal(outcomes[runId := counts], outcome) == GrandTotal(outcomes, outcome) + Total(counts, outcome)
  {
    var after := outcomes[runId := counts];
    assert after.Keys == outcomes.Keys + {runId};
    SumInsert(outcomes.Keys, RunTotal(after, outcome), runId);
    SumCong(outcomes.Keys, RunTotal(after, outcome), RunTotal(outcomes, outcome));
  }

  ghost predicate RunReconciled(counts: Counter) {
    Total(counts, Arrival) == Total(counts, AcceptedNew) + Total(counts, Duplicate) + Total(counts, Quarantined)
  }

  ghost predicate RecordsConserved(db: Database, arrivals: nat) {
    && db.outcomes.Keys <= db.journal.Keys
    && (forall runId :: runId in db.outcomes ==> RunReconciled(db.outcomes[runId]))
    && GrandTotal(db.outcomes, Arrival) == arrivals
    && GrandTotal(db.outcomes, AcceptedNew) == |db.accepted|
    && GrandTotal(db.outcomes, Quarantined) == |db.quarantine|
    && db.seen.Keys == db.accepted.Keys
  }

  /**
   Every committed run has arrivals = accepted + duplicates + quarantined, and over all runs the accepted
   count is the size of the accepted table and the quarantined count that of the quarantine.
   */
  lemma {:induction false} RecordsAreConserved(gate: Gate, rules: PostingRules, runs: seq<RunInput>)
    ensures RecordsConserved(After(gate, rules, runs), |CommittedRaws(gate, rules, runs)|)
  {
    hide Total, Project, Postable, IngestAll, Consistent, RunReconciled, Sound, GrandTotal;
    if runs == [] {
      NothingToConserve();
    } else {
      var front, last := runs[..|runs| - 1], runs[|runs| - 1];
      RecordsAreConserved(gate, rules, front);
      var before := After(gate, rules, front);
      assert |CommittedRaws(gate, rules, runs)| == |CommittedRaws(gate, rules, front)|
        + if Commits(gate, rules, before, last) then |last.rawEvents| else 0;
      if Commits(gate, rules, before, last) {
        CommitConserves(gate, rules, before, last, |CommittedRaws(gate, rules, front)|);
      }
    }
  }

  lemma NothingToConserve()
    ensures RecordsConserved(EMPTY_DATABASE, 0)
  {
  }

  lemma CommitConserves(gate: Gate, rules: PostingRules, db: Database, run: RunInput, arrivals: nat)
    requires Sound(gate, db) && Commits(gate, rules, db, run)
    requires RecordsConserved(db, arrivals)
    ensures RecordsConserved(Committed(gate, rules, db, run), arrivals + |run.rawEvents|)
  {
    hide Total, GrandTotal, Project, Postable, IngestAll, Consistent;
    var counts := Ingested(gate, db, run).counts;
    ArrivalsAreClassified(gate, run.runId, Opening(db), run.rawEvents);
    IngestAllGrows(gate, run.runId, Opening(db), run.rawEvents);
    EmptyTotals();
    GrandTotalAdd(db.outcomes, run.runId, counts, Arrival);
    GrandTotalAdd(db.outcomes, run.runId, counts, AcceptedNew);
    GrandTotalAdd(db.outcomes, run.runId, counts, Quarantined);
  }

  // ---- identity is permanent ----

  ghost predicate Keeps(before: Database, after: Database) {
    && (forall id :: id in before.seen ==> id in after.seen && after.seen[id] == before.seen[id])
    && (forall id :: id in before.accepted ==> id in after.accepted && after.accepted[id] == before.accepted[id])
    && before.quarantine <= after.quarantine
  }

  lemma OneRunKeeps(gate: Gate, rules: PostingRules, db: Database, run: RunInput)
    requires Sound(gate, db)
    ensures Keeps(db, ProcessRun(gate, rules, db, run))
  {
    hide Project, Postable, IngestAll, Consistent;
    SoundIsKeyed(gate, db);
    IngestAllGrows(gate, run.runId, Opening(db), run.rawEvents);
  }

  /** Over any further runs, an event's identity and accepted content never change. */
  lemma {:induction false} IdentityIsPermanent(gate: Gate, rules: PostingRules, runs: seq<RunInput>, more: seq<RunInput>)
    ensures Keeps(After(gate, rules, runs), After(gate, rules, runs + more))
  {
    hide Sound, ProcessRun;
    if more == [] {
      assert runs + more == runs;
    } else {
      var last := |more| - 1;
      IdentityIsPermanent(gate, rules, runs, more[..last]);
      assert (runs + more)[..|runs + more| - 1] == runs + more[..last];
      OneRunKeeps(gate, rules, After(gate, rules, runs + more[..last]), more[last]);
    }
  }

  // ---- what the journal says ----

  /** Succeeded runs committed, failed ones did not; a started one may have done either. */
  ghost predicate JournalTruthful(db: Database) {
    && (forall runId :: runId in db.journal && db.journal[runId] == Succeeded ==> runId in db.outcomes)
    && (forall runId :: runId in db.journal && db.journal[runId] == Failed ==> runId !in db.outcomes)
    && (forall runId :: runId in db.outcomes ==> runId in db.journal)
  }

  lemma {:induction false} JournalIsTruthful(gate: Gate, rules: PostingRules, runs: seq<RunInput>)
    ensures JournalTruthful(After(gate, rules, runs))
  {
    hide Commits, Sound;
    if runs != [] {
      JournalIsTruthful(gate, rules, runs[..|runs| - 1]);
      NewInJournal(gate, rules, After(gate, rules, runs[..|runs| - 1]), runs[|runs| - 1]);
    }
  }

  lemma NewInJournal(gate: Gate, rules: PostingRules, db: Database, run: RunInput)
    requires Sound(gate, db)
    ensures Commits(gate, rules, db, run) ==> run.runId !in db.journal
  {
    hide Postable, TransactionIds, Ingested;
  }
}
