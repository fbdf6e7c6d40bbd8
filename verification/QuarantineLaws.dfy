/**
 What the quarantine table says after any sequence of runs: it lists, in arrival order, exactly the committed raw
 events that the contract or the identity table turns away, redacted; and it shows by itself whether arrival order
 could have mattered.
 */
module QuarantineLaws {
  import opened Wrappers
  import opened Contracts
  import opened Ledger
  import opened History
  import opened Projection
  import opened Intake
  import opened Runs
  import opened RunLaws

  /** Why a raw event is turned away, judged by an identity table in which its id already has its owner. */
  function Refusal(gate: Gate, seen: map<string, SeenRow>, raw: Raw): Option<Reason> {
    match ValidateEvent(gate, raw)
    case Err(reason) => Some(reason)
    case Ok(event) =>
      if event.eventId in seen && seen[event.eventId].identity != IdentityFingerprint(gate, raw)
      then Some(IdentityPayloadConflict) else None
  }

  function RefusalRows(gate: Gate, seen: map<string, SeenRow>, runId: string, raw: Raw): seq<QuarantineRow> {
    match Refusal(gate, seen, raw)
    case None => []
    case Some(reason) => [QuarantineRow(runId, RawEventId(raw), reason, Redact(gate, Object(raw)))]
  }

  function Refusals(gate: Gate, seen: map<string, SeenRow>, runId: string, raws: seq<Raw>): seq<QuarantineRow> {
    if raws == [] then []
    else Refusals(gate, seen, runId, raws[..|raws| - 1]) + RefusalRows(gate, seen, runId, raws[|raws| - 1])
  }

  ghost predicate Extends(before: map<string, SeenRow>, after: map<string, SeenRow>) {
    forall id :: id in before ==> id in after && after[id] == before[id]
  }

  lemma {:induction false} RefusalsStay(
    gate: Gate, before: map<string, SeenRow>, after: map<string, SeenRow>, runId: string, raws: seq<Raw>)
    requires AllSeen(gate, before, raws) && Extends(before, after)
    ensures Refusals(gate, after, runId, raws) == Refusals(gate, before, runId, raws)
    ensures AllSeen(gate, after, raws)
  {
    hide ValidateEvent, IdentityFingerprint, Redact;
    if raws != [] {
      RefusalsStay(gate, before, after, runId, raws[..|raws| - 1]);
      assert raws[|raws| - 1] in raws;
    }
  }

  lemma ValidatedId(gate: Gate, raw: Raw)
    requires ValidateEvent(gate, raw).Ok?
    ensures RawEventId(raw) == Some(ValidateEvent(gate, raw).value.eventId)
  {
    hide ValidateEvent, Prohibited;
    ValidatedEvent(gate, raw);
  }

  lemma OneRefused(gate: Gate, runId: string, tray: Tray, raw: Raw)
    ensures var after := IngestOne(gate, runId, tray, raw);
      && after.quarantine == tray.quarantine + RefusalRows(gate, after.seen, runId, raw)
      && Extends(tray.seen, after.seen)
      && AllSeen(gate, after.seen, [raw])
  {
    hide ValidateEvent, IdentityFingerprint, Redact, RawEventId;
    if ValidateEvent(gate, raw).Ok? { ValidatedId(gate, raw); }
  }

  lemma {:induction false} IngestAllRefuses(gate: Gate, runId: string, tray: Tray, raws: seq<Raw>)
    ensures var after := IngestAll(gate, runId, tray, raws);
      && after.quarantine == tray.quarantine + Refusals(gate, after.seen, runId, raws)
      && Extends(tray.seen, after.seen)
      && AllSeen(gate, after.seen, raws)
  {
    hide ValidateEvent, RefusalRows, IngestOne;
    if raws != [] {
      var front, last := raws[..|raws| - 1], raws[|raws| - 1];
      IngestAllRefuses(gate, runId, tray, front);
      var before := IngestAll(gate, runId, tray, front);
      OneRefused(gate, runId, before, last);
      RefusalsStay(gate, before.seen, IngestOne(gate, runId, before, last).seen, runId, front);
      assert forall raw :: raw in raws <==> raw in front || raw in [last];
    }
  }

  // ---- over whole sequences of runs ----

  /** The rows of all committed runs, in order, judged by one identity table. */
  ghost function AllRefusals(gate: Gate, rules: PostingRules, seen: map<string, SeenRow>, runs: seq<RunInput>)
    : seq<QuarantineRow>
  {
    if runs == [] then []
    else
      var front, last := runs[..|runs| - 1], runs[|runs| - 1];
      AllRefusals(gate, rules, seen, front)
      + (if Commits(gate, rules, After(gate, rules, front), last) then Refusals(gate, seen, last.runId, last.rawEvents) else [])
  }

  lemma {:induction false} AllRefusalsStay(
    gate: Gate, rules: PostingRules, before: map<string, SeenRow>, after: map<string, SeenRow>, runs: seq<RunInput>)
    requires AllSeen(gate, before, CommittedRaws(gate, rules, runs)) && Extends(before, after)
    ensures AllRefusals(gate, rules, after, runs) == AllRefusals(gate, rules, before, runs)
  {
    hide ValidateEvent, Commits, After, Refusals, Extends;
    if runs != [] {
      var front, last := runs[..|runs| - 1], runs[|runs| - 1];
      assert AllSeen(gate, before, CommittedRaws(gate, rules, front));
      AllRefusalsStay(gate, rules, before, after, front);
      if Commits(gate, rules, After(gate, rules, front), last) {
        assert AllSeen(gate, before, last.rawEvents);
        RefusalsStay(gate, before, after, last.runId, last.rawEvents);
      }
    }
  }

  /** The quarantine is a function of the committed raw events and the final identity table, row for row. */
  lemma {:induction false} QuarantineIsExact(gate: Gate, rules: PostingRules, runs: seq<RunInput>)
    ensures var db := After(gate, rules, runs);
      && db.quarantine == AllRefusals(gate, rules, db.seen, runs)
      && AllSeen(gate, db.seen, CommittedRaws(gate, rules, runs))
  {
    hide AllSeen, Refusals, Commits, Sound, IngestAll, Project, Extends;
    CommittedIsSeen(gate, rules, runs, CommittedRaws(gate, rules, runs));
    if runs != [] {
      var front, last := runs[..|runs| - 1], runs[|runs| - 1];
      QuarantineIsExact(gate, rules, front);
      var before := After(gate, rules, front);
      if Commits(gate, rules, before, last) {
        NewInJournal(gate, rules, before, last);
        IngestAllRefuses(gate, last.runId, Opening(before), last.rawEvents);
        AllRefusalsStay(gate, rules, before.seen, After(gate, rules, runs).seen, front);
      }
    }
  }

  // ---- row by row ----

  ghost predicate TurnedAway(gate: Gate, seen: map<string, SeenRow>, raws: seq<Raw>, row: QuarantineRow) {
    exists raw :: raw in raws && Refusal(gate, seen, raw) == Some(row.reason) && row.redacted == Redact(gate, Object(raw))
  }

  lemma {:induction false} RefusalsAreRows(gate: Gate, seen: map<string, SeenRow>, runId: string, raws: seq<Raw>)
    ensures forall row :: row in Refusals(gate, seen, runId, raws) ==> TurnedAway(gate, seen, raws, row)
    ensures forall raw :: raw in raws && Refusal(gate, seen, raw).Some? ==>
              QuarantineRow(runId, RawEventId(raw), Refusal(gate, seen, raw).value, Redact(gate, Object(raw)))
              in Refusals(gate, seen, runId, raws)
  {
    hide Refusal, Redact, RawEventId;
    if raws != [] {
      var front, last := raws[..|raws| - 1], raws[|raws| - 1];
      RefusalsAreRows(gate, seen, runId, front);
      assert forall raw :: raw in raws <==> raw in front || raw == last;
    }
  }

  /** Every row comes from a committed raw event that is turned away, and each of those has its row. */
  lemma {:induction false} RowsAreRefusals(gate: Gate, rules: PostingRules, seen: map<string, SeenRow>, runs: seq<RunInput>)
    ensures var raws, rows := CommittedRaws(gate, rules, runs), AllRefusals(gate, rules, seen, runs);
      && (forall row :: row in rows ==> TurnedAway(gate, seen, raws, row))
      && forall raw :: raw in raws && Refusal(gate, seen, raw).Some? ==>
           exists row :: row in rows && row.reason == Refusal(gate, seen, raw).value && row.redacted == Redact(gate, Object(raw))
  {
    hide Refusal, Redact, Refusals, Commits, After, RawEventId;
    if runs != [] {
      var front, last := runs[..|runs| - 1], runs[|runs| - 1];
      RowsAreRefusals(gate, rules, seen, front);
      RefusalsAreRows(gate, seen, last.runId, last.rawEvents);
      var before, after := CommittedRaws(gate, rules, front), CommittedRaws(gate, rules, runs);
      if Commits(gate, rules, After(gate, rules, front), last) {
        assert AllRefusals(gate, rules, seen, runs)
            == AllRefusals(gate, rules, seen, front) + Refusals(gate, seen, last.runId, last.rawEvents);
        assert after == before + last.rawEvents;
        forall row ensures TurnedAway(gate, seen, before, row) ==> TurnedAway(gate, seen, after, row) {}
        forall row ensures TurnedAway(gate, seen, last.rawEvents, row) ==> TurnedAway(gate, seen, after, row) {}
      } else {
        assert AllRefusals(gate, rules, seen, runs) == AllRefusals(gate, rules, seen, front);
        assert after == before;
      }
    }
  }

  // ---- rows and their runs ----

  /** The row's event id is the raw event's, if that is a text. */
  ghost predicate Names(raw: Raw, eventId: Option<string>) {
    match eventId
    case None => "event_id" !in raw || !raw["event_id"].Text?
    case Some(id) => "event_id" in raw && raw["event_id"] == Text(id)
  }

  ghost predicate RowFor(gate: Gate, seen: map<string, SeenRow>, runId: string, raw: Raw, row: QuarantineRow) {
    && Refusal(gate, seen, raw) == Some(row.reason) && row.runId == runId
    && Names(raw, row.eventId) && row.redacted == Redact(gate, Object(raw))
  }

  ghost predicate CommitsAt(gate: Gate, rules: PostingRules, runs: seq<RunInput>, k: nat) {
    k < |runs| && Commits(gate, rules, After(gate, rules, runs[..k]), runs[k])
  }

  lemma {:induction false} RefusalsAre(gate: Gate, seen: map<string, SeenRow>, runId: string, raws: seq<Raw>, row: QuarantineRow)
    ensures row in Refusals(gate, seen, runId, raws) <==> exists raw :: raw in raws && RowFor(gate, seen, runId, raw, row)
  {
    hide Refusal, Redact;
    if raws != [] {
      var front, last := raws[..|raws| - 1], raws[|raws| - 1];
      RefusalsAre(gate, seen, runId, front, row);
      assert row in RefusalRows(gate, seen, runId, last) <==> RowFor(gate, seen, runId, last, row);
      assert forall raw :: raw in raws <==> raw in front || raw == last;
    }
  }

  lemma {:induction false} AllRefusalsAre(
    gate: Gate, rules: PostingRules, seen: map<string, SeenRow>, runs: seq<RunInput>, row: QuarantineRow)
    ensures row in AllRefusals(gate, rules, seen, runs)
       <==> exists k: nat, raw ::
              CommitsAt(gate, rules, runs, k) && raw in runs[k].rawEvents && RowFor(gate, seen, runs[k].runId, raw, row)
  {
    hide RowFor, Refusals, Commits, After;
    if runs != [] {
      var last := |runs| - 1;
      var front := runs[..last];
      AllRefusalsAre(gate, rules, seen, front, row);
      RefusalsAre(gate, seen, runs[last].runId, runs[last].rawEvents, row);
      assert CommitsAt(gate, rules, runs, last) <==> Commits(gate, rules, After(gate, rules, front), runs[last]);
      forall k: nat | k < last ensures CommitsAt(gate, rules, runs, k) <==> CommitsAt(gate, rules, front, k) {
        assert runs[..k] == front[..k];
      }
      if k: nat, raw :| CommitsAt(gate, rules, front, k) && raw in front[k].rawEvents
                        && RowFor(gate, seen, front[k].runId, raw, row) {
        assert CommitsAt(gate, rules, runs, k) && runs[k] == front[k];
      }
      if k: nat, raw :| CommitsAt(gate, rules, runs, k) && raw in runs[k].rawEvents
                        && RowFor(gate, seen, runs[k].runId, raw, row) {
        if k < last { assert CommitsAt(gate, rules, front, k) && runs[k] == front[k]; }
      }
    }
  }

  /** A row is in the quarantine exactly if some committed run had a refused raw event that calls for it. */
  lemma RowsNameTheirRuns(gate: Gate, rules: PostingRules, runs: seq<RunInput>, row: QuarantineRow)
    ensures var db := After(gate, rules, runs);
      row in db.quarantine
      <==> exists k: nat, raw ::
             CommitsAt(gate, rules, runs, k) && raw in runs[k].rawEvents && RowFor(gate, db.seen, runs[k].runId, raw, row)
  {
    hide After, AllRefusals, CommitsAt, RowFor, Sound, AllSeen;
    QuarantineIsExact(gate, rules, runs);
    AllRefusalsAre(gate, rules, After(gate, rules, runs).seen, runs, row);
  }

  /** No row of the quarantine, whatever was processed, shows a sensitive field. */
  lemma QuarantineShowsNothingSensitive(gate: Gate, rules: PostingRules, runs: seq<RunInput>)
    ensures forall row :: row in After(gate, rules, runs).quarantine ==> ShowsNothingSensitive(gate, row.redacted)
  {
    hide After, CommittedRaws, AllRefusals, Refusal, Redact, ShowsNothingSensitive;
    var db := After(gate, rules, runs);
    QuarantineIsExact(gate, rules, runs);
    RowsAreRefusals(gate, rules, db.seen, runs);
    forall row | row in db.quarantine ensures ShowsNothingSensitive(gate, row.redacted) {
      var raw :| raw in CommittedRaws(gate, rules, runs) && row.redacted == Redact(gate, Object(raw));
      RedactionIsExact(gate, Object(raw));
    }
  }

  // ---- what the quarantine tells about arrival order ----

  ghost predicate ShowsConflict(db: Database) {
    exists row :: row in db.quarantine && row.reason == IdentityPayloadConflict
  }

  lemma ValidationNeverConflicts(gate: Gate, raw: Raw)
    ensures ValidateEvent(gate, raw) != Err(IdentityPayloadConflict)
  {
    hide Prohibited, IsIdentifier;
  }

  /** The quarantine holds an identity conflict exactly if two committed claims on one id differ in identity. */
  lemma ConflictShowsExactly(gate: Gate, rules: PostingRules, runs: seq<RunInput>)
    ensures ShowsConflict(After(gate, rules, runs)) <==> !ConflictFree(gate, CommittedRaws(gate, rules, runs))
  {
    hide After, CommittedRaws, AllRefusals, ConflictFree, ShowsConflict, Refusal;
    QuarantineIsExact(gate, rules, runs);
    if ShowsConflict(After(gate, rules, runs)) { ShownConflictIsReal(gate, rules, runs); }
    if !ConflictFree(gate, CommittedRaws(gate, rules, runs)) { RealConflictIsShown(gate, rules, runs); }
  }

  lemma ShownConflictIsReal(gate: Gate, rules: PostingRules, runs: seq<RunInput>)
    requires ShowsConflict(After(gate, rules, runs))
    ensures !ConflictFree(gate, CommittedRaws(gate, rules, runs))
  {
    hide After, CommittedRaws, AllRefusals, Refusal, Redact, Sound, AllSeen, ConflictFree;
    var db, raws := After(gate, rules, runs), CommittedRaws(gate, rules, runs);
    QuarantineIsExact(gate, rules, runs);
    RowsAreRefusals(gate, rules, db.seen, runs);
    var row :| row in db.quarantine && row.reason == IdentityPayloadConflict;
    assert TurnedAway(gate, db.seen, raws, row);
    var raw :| raw in raws && Refusal(gate, db.seen, raw) == Some(row.reason);
    LoserHasRival(gate, rules, runs, raw);
  }

  lemma LoserHasRival(gate: Gate, rules: PostingRules, runs: seq<RunInput>, raw: Raw)
    requires raw in CommittedRaws(gate, rules, runs)
    requires Refusal(gate, After(gate, rules, runs).seen, raw) == Some(IdentityPayloadConflict)
    ensures !ConflictFree(gate, CommittedRaws(gate, rules, runs))
  {
    hide After, CommittedRaws, ValidateEvent, IdentityFingerprint, Sound;
    var db, raws := After(gate, rules, runs), CommittedRaws(gate, rules, runs);
    ValidationNeverConflicts(gate, raw);
    var id := ValidateEvent(gate, raw).value.eventId;
    AcceptedIsExplained(gate, rules, runs, id);
    assert Claims(gate, raw, id);
    var owner :| owner in raws && CameFrom(gate, db, owner, id);
    assert Claims(gate, owner, id);
  }

  lemma RealConflictIsShown(gate: Gate, rules: PostingRules, runs: seq<RunInput>)
    requires !ConflictFree(gate, CommittedRaws(gate, rules, runs))
    ensures ShowsConflict(After(gate, rules, runs))
  {
    hide After, CommittedRaws, AllRefusals, ValidateEvent, IdentityFingerprint, Redact, Sound, TurnedAway;
    var db, raws := After(gate, rules, runs), CommittedRaws(gate, rules, runs);
    QuarantineIsExact(gate, rules, runs);
    RowsAreRefusals(gate, rules, db.seen, runs);
    var a, b, id :| a in raws && b in raws && Claims(gate, a, id) && Claims(gate, b, id)
      && IdentityFingerprint(gate, a) != IdentityFingerprint(gate, b);
    assert id in db.seen;
    var loser := if db.seen[id].identity != IdentityFingerprint(gate, a) then a else b;
    assert Refusal(gate, db.seen, loser) == Some(IdentityPayloadConflict);
  }

  /**
   If a quarantine shows no identity conflict, no other way of processing the same raw events could have ended
   with other projections, other accepted events or an identity conflict.
   */
  lemma NoConflictShownConfluence(gate: Gate, rules: PostingRules, first: seq<RunInput>, second: seq<RunInput>)
    requires SameElements(CommittedRaws(gate, rules, first), CommittedRaws(gate, rules, second))
    requires !ShowsConflict(After(gate, rules, first))
    ensures After(gate, rules, first).tables == After(gate, rules, second).tables
    ensures SameBusiness(After(gate, rules, first).accepted, After(gate, rules, second).accepted)
    ensures !ShowsConflict(After(gate, rules, second))
  {
    hide After, ShowsConflict, SameBusiness, NoRivals, RivalsProjectAlike, Claims, IdentityFingerprint;
    ConflictShowsExactly(gate, rules, first);
    ConflictShowsExactly(gate, rules, second);
    var raws := CommittedRaws(gate, rules, first);
    ConflictFreeHasNoRivals(gate, raws);
    NoRivalsProjectAlike(gate, raws);
    Confluence(gate, rules, first, second);
  }
}
