/**
 Settlement evidence among runs: whatever runs and reconciliations are interleaved, recorded differences are never
 stale, because every committing run discards evidence and differences together with the projections it rebuilds.
 */
module SettlementLaws {
  import opened Wrappers
  import opened Contracts
  import opened Ledger
  import opened History
  import opened Projection
  import opened Intake
  import opened Settlement
  import opened Runs

  datatype Deed = Process(run: RunInput) | Reconcile(rows: seq<ActualRow>)

  ghost function Done(gate: Gate, rules: PostingRules, db: Database, deed: Deed): (after: Database)
    requires Sound(gate, db)
    ensures Sound(gate, after)
  {
    match deed
    case Process(run) => ProcessRunSound(gate, rules, db, run); ProcessRun(gate, rules, db, run)
    case Reconcile(rows) => Reconciled(db, rows)
  }

  ghost function AfterDeeds(gate: Gate, rules: PostingRules, deeds: seq<Deed>): (db: Database)
    ensures Sound(gate, db)
  {
    if deeds == [] then EMPTY_DATABASE
    else Done(gate, rules, AfterDeeds(gate, rules, deeds[..|deeds| - 1]), deeds[|deeds| - 1])
  }

  ghost predicate IsCommit(gate: Gate, rules: PostingRules, deeds: seq<Deed>, k: nat) {
    k < |deeds| && deeds[k].Process? && Commits(gate, rules, AfterDeeds(gate, rules, deeds[..k]), deeds[k].run)
  }

  function EvidenceOf(deeds: seq<Deed>, k: nat): seq<ActualRow> {
    if k < |deeds| && deeds[k].Reconcile? then deeds[k].rows else []
  }

  ghost predicate IsEvidence(deeds: seq<Deed>, k: nat) {
    k < |deeds| && deeds[k].Reconcile? && DistinctKeys(deeds[k].rows)
  }

  /** The evidence that stands: taken at step k, with neither a commit nor other evidence since. */
  ghost predicate Standing(gate: Gate, rules: PostingRules, deeds: seq<Deed>, k: nat) {
    && IsEvidence(deeds, k)
    && forall j: nat :: k < j < |deeds| ==> !IsCommit(gate, rules, deeds, j) && !IsEvidence(deeds, j)
  }

  /** The tables hold the evidence and its differences from what the present projections expect. */
  ghost predicate Holds(db: Database, rows: seq<ActualRow>) {
    && (forall key :: key in db.settlementActual <==> exists i :: 0 <= i < |rows| && rows[i].key == key)
    && (forall i :: 0 <= i < |rows| ==>
          rows[i].key in db.settlementActual && db.settlementActual[rows[i].key] == rows[i].amountMinor)
    && Records(db.settlementExceptions, ExpectedSettlement(db.tables.posted), rows)
  }

  ghost predicate NoEvidence(db: Database) {
    db.settlementActual == map[] && db.settlementExceptions == map[]
  }

  lemma ReconciledHolds(db: Database, rows: seq<ActualRow>)
    requires DistinctKeys(rows)
    ensures Holds(Reconciled(db, rows), rows)
  {
    hide ActualAmounts, ExpectedSettlement, Deltas, Records;
    ActualKeys(rows);
    ActualHolds(rows);
    ComparisonIsExact(ExpectedSettlement(db.tables.posted), rows);
  }

  /** A committing run discards the evidence; any other run leaves evidence and projections as they were. */
  lemma RunAndEvidence(gate: Gate, rules: PostingRules, db: Database, run: RunInput)
    requires Sound(gate, db)
    ensures var after := ProcessRun(gate, rules, db, run);
      if Commits(gate, rules, db, run) then NoEvidence(after)
      else after.settlementActual == db.settlementActual && after.settlementExceptions == db.settlementExceptions
           && after.tables == db.tables
  {
    hide Postable, Ingested, Project;
  }

  lemma IsCommitInFront(gate: Gate, rules: PostingRules, deeds: seq<Deed>, k: nat)
    requires k < |deeds| - 1
    ensures IsCommit(gate, rules, deeds, k) <==> IsCommit(gate, rules, deeds[..|deeds| - 1], k)
    ensures IsEvidence(deeds, k) <==> IsEvidence(deeds[..|deeds| - 1], k)
  {
    hide Commits;
    assert deeds[..k] == deeds[..|deeds| - 1][..k];
  }

  /**
   After any runs and reconciliations, the settlement tables hold exactly the evidence that stands, compared with what
   the present projections expect, and they are empty if none stands.
   */
  lemma {:induction false} EvidenceIsNeverStale(gate: Gate, rules: PostingRules, deeds: seq<Deed>)
    ensures var db := AfterDeeds(gate, rules, deeds);
      && (forall k: nat :: Standing(gate, rules, deeds, k) ==> Holds(db, EvidenceOf(deeds, k)))
      && ((forall k: nat :: !Standing(gate, rules, deeds, k)) ==> NoEvidence(db))
  {
    hide Sound, IsCommit, IsEvidence, Holds, NoEvidence, Reconciled;
    if deeds == [] {
      NoEvidenceAtFirst();
      forall k: nat ensures !IsEvidence(deeds, k) { EvidenceIsWithin(deeds, k); }
    } else {
      var last := |deeds| - 1;
      var front := deeds[..last];
      EvidenceIsNeverStale(gate, rules, front);
      forall k: nat | k < last
        ensures IsCommit(gate, rules, deeds, k) <==> IsCommit(gate, rules, front, k)
        ensures IsEvidence(deeds, k) <==> IsEvidence(front, k)
      {
        IsCommitInFront(gate, rules, deeds, k);
      }
      forall k: nat ensures IsEvidence(deeds, k) ==> k <= last { EvidenceIsWithin(deeds, k); }
      forall k: nat ensures IsEvidence(front, k) ==> k < last { EvidenceIsWithin(front, k); }
      LastDeed(gate, rules, deeds);
      if IsEvidence(deeds, last) {
        assert Standing(gate, rules, deeds, last);
      } else if IsCommit(gate, rules, deeds, last) {
        assert forall k: nat :: !Standing(gate, rules, deeds, k);
      } else {
        assert forall k: nat :: Standing(gate, rules, deeds, k) <==> Standing(gate, rules, front, k);
        forall k: nat | Standing(gate, rules, deeds, k) ensures Holds(AfterDeeds(gate, rules, deeds), EvidenceOf(deeds, k)) {
          assert EvidenceOf(deeds, k) == EvidenceOf(front, k);
        }
      }
    }
  }

  lemma NoEvidenceAtFirst()
    ensures NoEvidence(EMPTY_DATABASE)
  {
  }

  lemma EvidenceIsWithin(deeds: seq<Deed>, k: nat)
    ensures IsEvidence(deeds, k) ==> k < |deeds|
  {
  }

  lemma LastDeed(gate: Gate, rules: PostingRules, deeds: seq<Deed>)
    requires deeds != []
    ensures var last := |deeds| - 1;
      var before, after := AfterDeeds(gate, rules, deeds[..last]), AfterDeeds(gate, rules, deeds);
      if IsEvidence(deeds, last) then Holds(after, EvidenceOf(deeds, last))
      else if IsCommit(gate, rules, deeds, last) then NoEvidence(after)
      else (NoEvidence(before) ==> NoEvidence(after)) && forall rows :: Holds(before, rows) ==> Holds(after, rows)
  {
    hide Sound, Commits, ProcessRun, Records;
    var last := |deeds| - 1;
    var before := AfterDeeds(gate, rules, deeds[..last]);
    match deeds[last]
    case Process(run) => RunAndEvidence(gate, rules, before, run);
    case Reconcile(rows) => if DistinctKeys(rows) { ReconciledHolds(before, rows); }
  }

  /** The gate's answer is about the present: no recorded difference exactly if the standing evidence agrees. */
  lemma NoDifferenceExactly(gate: Gate, rules: PostingRules, deeds: seq<Deed>, k: nat)
    requires Standing(gate, rules, deeds, k)
    ensures var db := AfterDeeds(gate, rules, deeds);
      db.settlementExceptions == map[] <==> Agrees(ExpectedSettlement(db.tables.posted), EvidenceOf(deeds, k))
  {
    hide AfterDeeds, Sound, ExpectedSettlement;
    EvidenceIsNeverStale(gate, rules, deeds);
    var db, rows := AfterDeeds(gate, rules, deeds), EvidenceOf(deeds, k);
    var expected := ExpectedSettlement(db.tables.posted);
    if db.settlementExceptions == map[] {
      forall i | 0 <= i < |rows| ensures rows[i].amountMinor == At(expected, rows[i].key) {
        assert States(rows, rows[i].key, rows[i].amountMinor);
      }
      forall key | key in expected && (forall i :: 0 <= i < |rows| ==> rows[i].key != key) ensures expected[key] == 0 {
        assert States(rows, key, 0);
      }
    }
  }
}
