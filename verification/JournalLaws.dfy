/**
 What the bookkeeping tables record: the journal names the fate of the first run under each id, an identity names the
 run that first accepted it, and quarantine counts are counted by reason.
 */
module JournalLaws {
  import opened Wrappers
  import opened Sums
  import opened Contracts
  import opened Ledger
  import opened History
  import opened Projection
  import opened Intake
  import opened Runs
  import opened RunLaws

  // ---- the journal ----

  /** The k-th run is the first one under the id; later ones under it change nothing. */
  ghost predicate FirstRun(runs: seq<RunInput>, k: nat, runId: string) {
    k < |runs| && runs[k].runId == runId && forall j :: 0 <= j < k ==> runs[j].runId != runId
  }

  /** Whether the run's transaction would get as far as its commit. */
  ghost predicate ReachesCommit(gate: Gate, rules: PostingRules, runs: seq<RunInput>, k: nat)
    requires k < |runs|
  {
    Completes(gate, rules, After(gate, rules, runs[..k]), runs[k])
  }

  /** A death leaves the run started unless it failed before; otherwise it succeeded or failed. */
  ghost predicate Fate(gate: Gate, rules: PostingRules, runs: seq<RunInput>, k: nat, status: RunStatus, committed: bool)
    requires k < |runs|
  {
    && (committed <==> ReachesCommit(gate, rules, runs, k) && runs[k].death != DiesBeforeCommit)
    && (status == Succeeded <==> ReachesCommit(gate, rules, runs, k) && runs[k].death == Survives)
    && (status == Failed <==> !ReachesCommit(gate, rules, runs, k) && runs[k].death != DiesBeforeCommit)
  }

  ghost predicate Recorded(gate: Gate, rules: PostingRules, runs: seq<RunInput>, k: nat, db: Database)
    requires k < |runs|
  {
    && runs[k].runId in db.journal
    && Fate(gate, rules, runs, k, db.journal[runs[k].runId], runs[k].runId in db.outcomes)
  }

  lemma FateInFront(gate: Gate, rules: PostingRules, runs: seq<RunInput>, k: nat)
    requires k < |runs| - 1
    ensures ReachesCommit(gate, rules, runs, k) <==> ReachesCommit(gate, rules, runs[..|runs| - 1], k)
  {
    hide Completes, Sound;
    assert runs[..k] == runs[..|runs| - 1][..k];
  }

  /** Outcomes are recorded for journalled runs only. */
  ghost predicate Closed(db: Database) {
    db.outcomes.Keys <= db.journal.Keys
  }

  lemma CommittedOutcomes(gate: Gate, rules: PostingRules, db: Database, run: RunInput)
    requires Sound(gate, db)
    ensures Committed(gate, rules, db, run).outcomes.Keys == db.outcomes.Keys + {run.runId}
  {
    hide Project, Ingested;
  }

  lemma RunIsRecorded(gate: Gate, rules: PostingRules, db: Database, run: RunInput)
    requires Sound(gate, db) && Closed(db)
    ensures var after := ProcessRun(gate, rules, db, run);
      && after.journal.Keys == db.journal.Keys + {run.runId}
      && Closed(after)
      && (forall runId :: runId in db.journal ==>
            && after.journal[runId] == db.journal[runId] && (runId in after.outcomes <==> runId in db.outcomes))
      && (run.runId !in db.journal ==>
            && (run.runId in after.outcomes <==> Completes(gate, rules, db, run) && run.death != DiesBeforeCommit)
            && (after.journal[run.runId] == Succeeded <==> Completes(gate, rules, db, run) && run.death == Survives)
            && (after.journal[run.runId] == Failed <==> !Completes(gate, rules, db, run) && run.death != DiesBeforeCommit))
  {
    hide ProcessRun, Committed, Completes, Sound;
    RunChanges(gate, rules, db, run);
  }

  lemma RunChanges(gate: Gate, rules: PostingRules, db: Database, run: RunInput)
    requires Sound(gate, db)
    ensures var after, completes := ProcessRun(gate, rules, db, run), Completes(gate, rules, db, run);
      && (run.runId in db.journal ==> !completes && after == db)
      && (run.runId !in db.journal ==>
            && after.journal == db.journal[run.runId := if run.death == DiesBeforeCommit then Started
                                                        else if !completes then Failed
                                                        else if run.death == DiesAfterCommit then Started else Succeeded]
            && after.outcomes.Keys
               == db.outcomes.Keys + (if completes && run.death != DiesBeforeCommit then {run.runId} else {}))
  {
    hide ProcessRun, Committed, Completes, Sound;
    RunOutcome(gate, rules, db, run);
    CommittedOutcomes(gate, rules, db, run);
    CommittedJournal(gate, rules, db, run);
  }

  /**
   The journal lists exactly the ids that were run, each with the fate of its first run: succeeded if it committed and
   survived, failed if it reached no commit, started if the process died first; outcomes are recorded exactly for commits.
   */
  lemma {:induction false} JournalIsExact(gate: Gate, rules: PostingRules, runs: seq<RunInput>)
    ensures var db := After(gate, rules, runs);
      && (forall runId :: runId in db.journal <==> exists k: nat :: FirstRun(runs, k, runId))
      && Closed(db)
      && forall k: nat, runId :: FirstRun(runs, k, runId) ==> Recorded(gate, rules, runs, k, db)
  {
    hide Sound, ProcessRun, ReachesCommit;
    if runs != [] {
      var last := |runs| - 1;
      var front := runs[..last];
      JournalIsExact(gate, rules, front);
      var before, after := After(gate, rules, front), After(gate, rules, runs);
      LastIsRecorded(gate, rules, runs);
      forall k: nat, runId | k < last ensures FirstRun(runs, k, runId) <==> FirstRun(front, k, runId) {
        assert forall j :: 0 <= j <= k ==> runs[j] == front[j];
      }
      forall k: nat, runId | FirstRun(runs, k, runId) ensures Recorded(gate, rules, runs, k, after) {
        if k < last {
          assert FirstRun(front, k, runId);
          FateInFront(gate, rules, runs, k);
        } else {
          assert forall j: nat :: !FirstRun(front, j, runId);
        }
      }
      forall runId ensures runId in after.journal <==> exists k: nat :: FirstRun(runs, k, runId) {
        if runId in before.journal {
          var k: nat :| FirstRun(front, k, runId);
          assert FirstRun(runs, k, runId);
        } else if runId == runs[last].runId {
          NotRunBefore(front, runId);
          assert FirstRun(runs, last, runId);
        }
      }
    }
  }

  lemma {:induction false} NotRunBefore(runs: seq<RunInput>, runId: string)
    requires forall k: nat :: !FirstRun(runs, k, runId)
    ensures forall j :: 0 <= j < |runs| ==> runs[j].runId != runId
  {
    var j := 0;
    while j < |runs|
      invariant 0 <= j <= |runs|
      invariant forall i :: 0 <= i < j ==> runs[i].runId != runId
    {
      assert !FirstRun(runs, j, runId);
      j := j + 1;
    }
  }

  lemma LastIsRecorded(gate: Gate, rules: PostingRules, runs: seq<RunInput>)
    requires runs != []
    requires Closed(After(gate, rules, runs[..|runs| - 1]))
    ensures var before, after, run := After(gate, rules, runs[..|runs| - 1]), After(gate, rules, runs), runs[|runs| - 1];
      && after.journal.Keys == before.journal.Keys + {run.runId}
      && Closed(after)
      && (forall runId :: runId in before.journal ==>
            && after.journal[runId] == before.journal[runId] && (runId in after.outcomes <==> runId in before.outcomes))
      && (run.runId !in before.journal ==> Recorded(gate, rules, runs, |runs| - 1, after))
  {
    hide Sound, ProcessRun, Completes;
    RunIsRecorded(gate, rules, After(gate, rules, runs[..|runs| - 1]), runs[|runs| - 1]);
  }

  // ---- which run first accepted an identity ----

  ghost predicate AcceptedBy(gate: Gate, rules: PostingRules, runs: seq<RunInput>, k: nat, id: string) {
    && k < |runs| && Commits(gate, rules, After(gate, rules, runs[..k]), runs[k])
    && id !in After(gate, rules, runs[..k]).seen
    && exists raw :: raw in runs[k].rawEvents && Claims(gate, raw, id)
  }

  lemma AcceptedByInFront(gate: Gate, rules: PostingRules, runs: seq<RunInput>, k: nat, id: string)
    requires k < |runs| - 1
    ensures AcceptedBy(gate, rules, runs, k, id) <==> AcceptedBy(gate, rules, runs[..|runs| - 1], k, id)
  {
    hide Commits, Sound, Claims;
    assert runs[..k] == runs[..|runs| - 1][..k];
  }

  lemma RunAccepts(gate: Gate, rules: PostingRules, db: Database, run: RunInput, id: string)
    requires Sound(gate, db)
    ensures var after := ProcessRun(gate, rules, db, run);
      && (id in db.seen ==> id in after.seen && after.seen[id] == db.seen[id])
      && (id !in db.seen ==>
            (id in after.seen <==> Commits(gate, rules, db, run) && exists raw :: raw in run.rawEvents && Claims(gate, raw, id)))
      && (id !in db.seen && id in after.seen ==> after.seen[id].firstRunId == run.runId)
  {
    hide Postable, TransactionIds, Project, ValidateEvent, IngestAll, Claims;
    SoundIsKeyed(gate, db);
    IngestAllGrows(gate, run.runId, Opening(db), run.rawEvents);
    if id !in db.seen { FirstWriterWins(gate, run.runId, Opening(db), run.rawEvents, id); }
    NewInJournal(gate, rules, db, run);
  }

  /** An identity is known exactly if some run accepted it, and it names that run. */
  lemma {:induction false} SeenNamesItsRun(gate: Gate, rules: PostingRules, runs: seq<RunInput>, id: string)
    ensures var seen := After(gate, rules, runs).seen;
      && (id in seen <==> exists k: nat :: AcceptedBy(gate, rules, runs, k, id))
      && forall k: nat :: AcceptedBy(gate, rules, runs, k, id) ==> id in seen && seen[id].firstRunId == runs[k].runId
  {
    hide After, AcceptedBy, Sound;
    if runs == [] {
      NothingSeen(gate, rules, id);
    } else {
      var last := |runs| - 1;
      var front := runs[..last];
      SeenNamesItsRun(gate, rules, front, id);
      LastRunAccepts(gate, rules, runs, id);
      forall k: nat | k < last
        ensures AcceptedBy(gate, rules, runs, k, id) <==> AcceptedBy(gate, rules, front, k, id)
      {
        AcceptedByInFront(gate, rules, runs, k, id);
      }
      forall k: nat ensures AcceptedBy(gate, rules, runs, k, id) ==> k <= last { AcceptedWithin(gate, rules, runs, k, id); }
      forall k: nat ensures AcceptedBy(gate, rules, front, k, id) ==> k < last { AcceptedWithin(gate, rules, front, k, id); }
      forall k: nat | AcceptedBy(gate, rules, runs, k, id)
        ensures id in After(gate, rules, runs).seen && After(gate, rules, runs).seen[id].firstRunId == runs[k].runId
      {
        if k < last { assert AcceptedBy(gate, rules, front, k, id) && front[k] == runs[k]; }
      }
      if id in After(gate, rules, front).seen {
        var k: nat :| AcceptedBy(gate, rules, front, k, id);
        assert AcceptedBy(gate, rules, runs, k, id);
      }
    }
  }

  lemma NothingSeen(gate: Gate, rules: PostingRules, id: string)
    ensures id !in After(gate, rules, []).seen
    ensures forall k: nat :: !AcceptedBy(gate, rules, [], k, id)
  {
  }

  lemma AcceptedWithin(gate: Gate, rules: PostingRules, runs: seq<RunInput>, k: nat, id: string)
    ensures AcceptedBy(gate, rules, runs, k, id) ==> k < |runs|
  {
  }

  lemma LastRunAccepts(gate: Gate, rules: PostingRules, runs: seq<RunInput>, id: string)
    requires runs != []
    ensures var last := |runs| - 1;
      var before, after := After(gate, rules, runs[..last]).seen, After(gate, rules, runs).seen;
      && (id in before ==> id in after && after[id] == before[id] && !AcceptedBy(gate, rules, runs, last, id))
      && (id !in before ==> (id in after <==> AcceptedBy(gate, rules, runs, last, id)))
      && (id !in before && id in after ==> after[id].firstRunId == runs[last].runId)
  {
    hide Sound, ProcessRun, Commits, Claims;
    RunAccepts(gate, rules, After(gate, rules, runs[..|runs| - 1]), runs[|runs| - 1], id);
  }

  // ---- counts by reason ----

  function CountAt(counts: Counter, key: OutcomeKey): nat {
    if key in counts then counts[key] else 0
  }

  function ForReason(runId: string, reason: Reason): QuarantineRow -> bool {
    (row: QuarantineRow) => row.runId == runId && row.reason == reason
  }

  function RowCount(rows: seq<QuarantineRow>, runId: string, reason: Reason): nat {
    |Filter(rows, ForReason(runId, reason))|
  }

  lemma {:induction false} RowCountAppend(rows: seq<QuarantineRow>, row: QuarantineRow, runId: string, reason: Reason)
    ensures RowCount(rows + [row], runId, reason)
         == RowCount(rows, runId, reason) + if row.runId == runId && row.reason == reason then 1 else 0
  {
    if rows != [] {
      assert (rows + [row])[1..] == rows[1..] + [row];
      RowCountAppend(rows[1..], row, runId, reason);
    } else {
      assert (rows + [row])[1..] == [];
    }
  }

  lemma OneIsCounted(gate: Gate, runId: string, tray: Tray, raw: Raw, reason: Reason)
    ensures var after := IngestOne(gate, runId, tray, raw);
      && CountAt(after.counts, OutcomeKey(Quarantined, Some(reason))) - CountAt(tray.counts, OutcomeKey(Quarantined, Some(reason)))
         == RowCount(after.quarantine, runId, reason) - RowCount(tray.quarantine, runId, reason)
  {
    hide ValidateEvent, IdentityFingerprint, RowCount, Redact, RawEventId, CountAt, Bump;
    var arrived, key := Bump(tray.counts, ARRIVED), OutcomeKey(Quarantined, Some(reason));
    var after := IngestOne(gate, runId, tray, raw);
    BumpAt(tray.counts, ARRIVED, key);
    BumpAt(arrived, ACCEPTED, key);
    BumpAt(arrived, REPLAYED, key);
    if |after.quarantine| > |tray.quarantine| {
      var row := after.quarantine[|tray.quarantine|];
      assert after.quarantine == tray.quarantine + [row];
      RowCountAppend(tray.quarantine, row, runId, reason);
      BumpAt(arrived, Refused(row.reason), key);
    }
  }

  lemma BumpAt(counts: Counter, bumped: OutcomeKey, key: OutcomeKey)
    ensures CountAt(Bump(counts, bumped), key) == CountAt(counts, key) + if bumped == key then 1 else 0
  {
  }

  /** For every reason, a batch is counted as often as it adds quarantine rows of the run and reason. */
  lemma {:induction false} ReasonsAreCounted(gate: Gate, runId: string, tray: Tray, raws: seq<Raw>, reason: Reason)
    ensures var after := IngestAll(gate, runId, tray, raws);
      && CountAt(after.counts, OutcomeKey(Quarantined, Some(reason))) - CountAt(tray.counts, OutcomeKey(Quarantined, Some(reason)))
         == RowCount(after.quarantine, runId, reason) - RowCount(tray.quarantine, runId, reason)
  {
    hide IngestOne, RowCount;
    if raws != [] {
      ReasonsAreCounted(gate, runId, tray, raws[..|raws| - 1], reason);
      OneIsCounted(gate, runId, IngestAll(gate, runId, tray, raws[..|raws| - 1]), raws[|raws| - 1], reason);
    }
  }
}
