/**
 At-least-once delivery: a raw event that comes again with any other delivery time is an exact replay, for the store
 and for the identity gate alike.
 */
module Redelivery {
  import opened Wrappers
  import opened Contracts
  import opened ContractLaws
  import opened Ledger
  import opened History
  import opened Projection
  import opened Intake
  import opened Runs
  import opened RunLaws
  import Publication
  import PublicationLaws

  /** The event id of the raw event is known with the raw event's own identity. */
  ghost predicate Owned(gate: Gate, seen: map<string, SeenRow>, raw: Raw) {
    && ValidateEvent(gate, raw).Ok?
    && ValidateEvent(gate, raw).value.eventId in seen
    && seen[ValidateEvent(gate, raw).value.eventId].identity == IdentityFingerprint(gate, raw)
  }

  lemma RedeliveredEvent(gate: Gate, raw: Raw, receivedAt: Json)
    requires ValidateEvent(gate, raw).Ok? && ValidateEvent(gate, Redelivered(raw, receivedAt)).Ok?
    ensures Business(ValidateEvent(gate, Redelivered(raw, receivedAt)).value) == Business(ValidateEvent(gate, raw).value)
    ensures IdentityFingerprint(gate, Redelivered(raw, receivedAt)) == IdentityFingerprint(gate, raw)
  {
    hide ValidateEvent, IdentityFingerprint, Redelivered;
    RedeliveryKeepsIdentity(gate, raw, receivedAt);
    EqualIdentityEqualEvent(gate, raw, Redelivered(raw, receivedAt));
  }

  lemma SameEventId(a: PaymentEvent, b: PaymentEvent)
    requires Business(a) == Business(b)
    ensures a.eventId == b.eventId
  {
    assert Business(a).eventId == a.eventId && Business(b).eventId == b.eventId;
  }

  lemma OwnedStays(gate: Gate, seen: map<string, SeenRow>, raw: Raw, receivedAt: Json)
    requires Owned(gate, seen, raw) && ValidateEvent(gate, Redelivered(raw, receivedAt)).Ok?
    ensures Owned(gate, seen, Redelivered(raw, receivedAt))
  {
    hide ValidateEvent, IdentityFingerprint, Redelivered;
    RedeliveredEvent(gate, raw, receivedAt);
    SameEventId(ValidateEvent(gate, raw).value, ValidateEvent(gate, Redelivered(raw, receivedAt)).value);
  }

  // ---- the store ----

  /**
   Whatever was ingested before, unless the event lost its id to a rival its redelivery is counted as one duplicate
   and changes nothing else.
   */
  lemma RedeliveryIsDuplicate(gate: Gate, runId: string, tray: Tray, raw: Raw, receivedAt: Json)
    requires ValidateEvent(gate, raw).Ok? && ValidateEvent(gate, Redelivered(raw, receivedAt)).Ok?
    requires ValidateEvent(gate, raw).value.eventId in tray.seen ==> Owned(gate, tray.seen, raw)
    ensures var once := IngestOne(gate, runId, tray, raw);
      var twice := IngestOne(gate, runId, once, Redelivered(raw, receivedAt));
      && Owned(gate, once.seen, raw)
      && twice == once.(counts := twice.counts)
      && twice.counts == Bump(Bump(once.counts, OutcomeKey(Arrival, None)), OutcomeKey(Duplicate, None))
  {
    hide ValidateEvent, IdentityFingerprint, Redelivered;
    OwnedStays(gate, IngestOne(gate, runId, tray, raw).seen, raw, receivedAt);
  }

  /** The counter of a run that only saw duplicates. */
  function OnlyDuplicates(n: nat): Counter {
    if n == 0 then map[] else map[OutcomeKey(Arrival, None) := n, OutcomeKey(Duplicate, None) := n]
  }

  lemma {:induction false} OwnedAreDuplicates(gate: Gate, runId: string, tray: Tray, raws: seq<Raw>)
    requires tray.counts == map[]
    requires forall raw :: raw in raws ==> Owned(gate, tray.seen, raw)
    ensures IngestAll(gate, runId, tray, raws) == tray.(counts := OnlyDuplicates(|raws|))
  {
    hide ValidateEvent, IdentityFingerprint;
    if raws != [] {
      assert raws[|raws| - 1] in raws;
      OwnedAreDuplicates(gate, runId, tray, raws[..|raws| - 1]);
    }
  }

  /** A valid raw event that differs from a committed one in its delivery time at most. */
  ghost predicate IsRedelivery(gate: Gate, committed: seq<Raw>, raw: Raw) {
    && ValidateEvent(gate, raw).Ok?
    && exists original, receivedAt ::
         original in committed && ValidateEvent(gate, original).Ok? && raw == Redelivered(original, receivedAt)
  }

  lemma RedeliveryIsOwned(gate: Gate, rules: PostingRules, runs: seq<RunInput>, raw: Raw)
    requires ConflictFree(gate, CommittedRaws(gate, rules, runs))
    requires IsRedelivery(gate, CommittedRaws(gate, rules, runs), raw)
    ensures Owned(gate, After(gate, rules, runs).seen, raw)
  {
    hide ValidateEvent, IdentityFingerprint, After, CommittedRaws, Redelivered, Sound;
    var committed, db := CommittedRaws(gate, rules, runs), After(gate, rules, runs);
    var original, receivedAt :|
      original in committed && ValidateEvent(gate, original).Ok? && raw == Redelivered(original, receivedAt);
    var id := ValidateEvent(gate, original).value.eventId;
    AcceptedIsExplained(gate, rules, runs, id);
    assert Claims(gate, original, id);
    var owner :| owner in committed && CameFrom(gate, db, owner, id);
    assert Claims(gate, owner, id);
    OwnedStays(gate, db.seen, original, receivedAt);
  }

  /**
   A run over redeliveries of committed events, among which no two claims conflict, counts nothing but duplicates,
   quarantines nothing and leaves accepted events and projections alone.
   */
  lemma RedeliveriesAreDuplicates(gate: Gate, rules: PostingRules, runs: seq<RunInput>, replay: RunInput)
    requires ConflictFree(gate, CommittedRaws(gate, rules, runs))
    requires forall raw :: raw in replay.rawEvents ==> IsRedelivery(gate, CommittedRaws(gate, rules, runs), raw)
    requires Commits(gate, rules, After(gate, rules, runs), replay)
    ensures var before, after := After(gate, rules, runs), After(gate, rules, runs + [replay]);
      && replay.runId in after.outcomes && after.outcomes[replay.runId] == OnlyDuplicates(|replay.rawEvents|)
      && after.quarantine == before.quarantine && after.seen == before.seen
      && after.accepted == before.accepted && after.tables == before.tables
  {
    hide ValidateEvent, IdentityFingerprint, CommittedRaws, IsRedelivery, Owned, IngestAll, Project, Postable, Consistent;
    hide ConflictFree;
    var before := After(gate, rules, runs);
    assert (runs + [replay])[..|runs|] == runs;
    forall raw | raw in replay.rawEvents ensures Owned(gate, before.seen, raw) {
      RedeliveryIsOwned(gate, rules, runs, raw);
    }
    OwnedAreDuplicates(gate, replay.runId, Opening(before), replay.rawEvents);
    TablesMirrorHistory(gate, rules, runs);
    NewInJournal(gate, rules, before, replay);
  }

  // ---- the identity gate ----

  /** A worker for the redelivery of a published event ends as already published and changes neither table nor bucket. */
  lemma RedeliveryIsAlreadyPublished(
    gate: Gate, actions: seq<Publication.Action>, id: nat, raw: Raw, receivedAt: Json)
    requires ValidateEvent(gate, raw).Ok? && ValidateEvent(gate, Redelivered(raw, receivedAt)).Ok?
    requires var w, eventId := Publication.After(gate, actions), ValidateEvent(gate, raw).value.eventId;
      && id !in w.workers && eventId in w.table
      && w.table[eventId].identity == IdentityFingerprint(gate, raw) && w.table[eventId].status == Publication.Published
    ensures var w := Publication.After(gate, actions);
      var after := PublicationLaws.Uninterrupted(gate, w, id, Redelivered(raw, receivedAt));
      && id in after.workers && after.workers[id].phase == Publication.Done(Publication.AlreadyPublished)
      && after.table == w.table && after.bucket == w.bucket && after.conflicts == w.conflicts
  {
    hide Publication.After, ValidateEvent, IdentityFingerprint, Redelivered, PublicationLaws.Uninterrupted;
    RedeliveredEvent(gate, raw, receivedAt);
    SameEventId(ValidateEvent(gate, raw).value, ValidateEvent(gate, Redelivered(raw, receivedAt)).value);
    PublicationLaws.RetryCompletes(gate, actions, id, Redelivered(raw, receivedAt));
  }
}
