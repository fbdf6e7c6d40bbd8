/** The identity gate of a run: each arrival is accepted, a duplicate, or quarantined; first writer wins. */
module Intake {
  import opened Wrappers
  import opened Sums
  import opened Contracts
  import opened History

  datatype Outcome = Arrival | AcceptedNew | Duplicate | Quarantined

  /** An outcome with its reason; the reason is fixed except for quarantined arrivals. */
  datatype OutcomeKey = OutcomeKey(outcome: Outcome, reason: Option<Reason>)

  type Counter = map<OutcomeKey, nat>

  datatype SeenRow = SeenRow(identity: Identity, firstRunId: string)

  datatype QuarantineRow = QuarantineRow(runId: string, eventId: Option<string>, reason: Reason, redacted: Json)

  datatype Tray = Tray(
    seen: map<string, SeenRow>,
    accepted: Accepted,
    quarantine: seq<QuarantineRow>,
    counts: Counter
  )

  const ARRIVED := OutcomeKey(Arrival, None)
  const ACCEPTED := OutcomeKey(AcceptedNew, None)
  const REPLAYED := OutcomeKey(Duplicate, None)

  function Refused(reason: Reason): OutcomeKey {
    OutcomeKey(Quarantined, Some(reason))
  }

  function Bump(counts: Counter, key: OutcomeKey): Counter {
    counts[key := (if key in counts then counts[key] else 0) + 1]
  }

  function RawEventId(raw: Raw): Option<string> {
    if "event_id" in raw && raw["event_id"].Text? then Some(raw["event_id"].s) else None
  }

  function IngestOne(gate: Gate, runId: string, tray: Tray, raw: Raw): Tray {
    var counts := Bump(tray.counts, ARRIVED);
    match ValidateEvent(gate, raw)
    case Err(reason) =>
      tray.(quarantine := tray.quarantine + [QuarantineRow(runId, RawEventId(raw), reason, Redact(gate, Object(raw)))],
            counts := Bump(counts, Refused(reason)))
    case Ok(event) =>
      var identity := IdentityFingerprint(gate, raw);
      if event.eventId in tray.seen then
        if tray.seen[event.eventId].identity == identity then
          tray.(counts := Bump(counts, REPLAYED))
        else
          tray.(quarantine := tray.quarantine
                              + [QuarantineRow(runId, Some(event.eventId), IdentityPayloadConflict, Redact(gate, Object(raw)))],
                counts := Bump(counts, Refused(IdentityPayloadConflict)))
      else
        tray.(seen := tray.seen[event.eventId := SeenRow(identity, runId)],
              accepted := tray.accepted[event.eventId := event],
              counts := Bump(counts, ACCEPTED))
  }

  function IngestAll(gate: Gate, runId: string, tray: Tray, raws: seq<Raw>): Tray {
    if raws == [] then tray
    else IngestOne(gate, runId, IngestAll(gate, runId, tray, raws[..|raws| - 1]), raws[|raws| - 1])
  }

  // ---- what the gate keeps ----

  /** Identity table and accepted table agree, key by key. */
  ghost predicate Consistent(gate: Gate, seen: map<string, SeenRow>, accepted: Accepted) {
    && seen.Keys == accepted.Keys
    && Keyed(accepted)
    && forall id :: id in accepted ==>
         && WellFormed(accepted[id])
         && Business(accepted[id]) == EventOfIdentity(gate, seen[id].identity)
  }

  lemma IngestOneKeeps(gate: Gate, runId: string, tray: Tray, raw: Raw)
    requires Consistent(gate, tray.seen, tray.accepted)
    ensures var after := IngestOne(gate, runId, tray, raw); Consistent(gate, after.seen, after.accepted)
  {
    hide ValidateEvent, IdentityFingerprint, EventOfIdentity;
    if ValidateEvent(gate, raw).Ok? {
      IdentityDeterminesEvent(gate, raw);
    }
  }

  lemma {:induction false} IngestAllKeeps(gate: Gate, runId: string, tray: Tray, raws: seq<Raw>)
    requires Consistent(gate, tray.seen, tray.accepted)
    ensures var after := IngestAll(gate, runId, tray, raws); Consistent(gate, after.seen, after.accepted)
  {
    if raws != [] {
      IngestAllKeeps(gate, runId, tray, raws[..|raws| - 1]);
      IngestOneKeeps(gate, runId, IngestAll(gate, runId, tray, raws[..|raws| - 1]), raws[|raws| - 1]);
    }
  }

  /** An identity, once seen, and its event, once accepted, never change. */
  ghost predicate Grows(before: Tray, after: Tray) {
    && before.seen.Keys <= after.seen.Keys && before.accepted.Keys <= after.accepted.Keys
    && (forall id :: id in before.seen ==> after.seen[id] == before.seen[id])
    && (forall id :: id in before.accepted ==> after.accepted[id] == before.accepted[id])
    && before.quarantine <= after.quarantine
  }

  lemma IngestOneGrows(gate: Gate, runId: string, tray: Tray, raw: Raw)
    requires tray.seen.Keys == tray.accepted.Keys
    ensures Grows(tray, IngestOne(gate, runId, tray, raw))
    ensures IngestOne(gate, runId, tray, raw).seen.Keys == IngestOne(gate, runId, tray, raw).accepted.Keys
  {
    hide ValidateEvent, IdentityFingerprint;
  }

  lemma {:induction false} IngestAllGrows(gate: Gate, runId: string, tray: Tray, raws: seq<Raw>)
    requires tray.seen.Keys == tray.accepted.Keys
    ensures Grows(tray, IngestAll(gate, runId, tray, raws))
    ensures IngestAll(gate, runId, tray, raws).seen.Keys == IngestAll(gate, runId, tray, raws).accepted.Keys
  {
    hide IngestOne;
    if raws != [] {
      IngestAllGrows(gate, runId, tray, raws[..|raws| - 1]);
      IngestOneGrows(gate, runId, IngestAll(gate, runId, tray, raws[..|raws| - 1]), raws[|raws| - 1]);
    }
  }

  ghost predicate Claims(gate: Gate, raw: Raw, id: string) {
    ValidateEvent(gate, raw).Ok? && ValidateEvent(gate, raw).value.eventId == id
  }

  /** The first of several arrivals that claim an event id. */
  ghost predicate FirstClaim(gate: Gate, raws: seq<Raw>, i: nat, id: string) {
    && i < |raws| && Claims(gate, raws[i], id)
    && forall j :: 0 <= j < i ==> !Claims(gate, raws[j], id)
  }

  lemma IngestOneClaims(gate: Gate, runId: string, tray: Tray, raw: Raw, id: string)
    requires tray.seen.Keys == tray.accepted.Keys
    ensures var after := IngestOne(gate, runId, tray, raw);
      && (id in after.accepted <==> id in tray.accepted || Claims(gate, raw, id))
      && (id !in tray.accepted && Claims(gate, raw, id) ==>
            && id in after.seen
            && after.accepted[id] == ValidateEvent(gate, raw).value
            && after.seen[id] == SeenRow(IdentityFingerprint(gate, raw), runId))
  {
    hide ValidateEvent, IdentityFingerprint;
  }

  /** First writer wins: an id unseen before belongs to the first arrival that claims it. */
  lemma {:induction false} FirstWriterWins(gate: Gate, runId: string, tray: Tray, raws: seq<Raw>, id: string)
    requires id !in tray.seen && tray.seen.Keys == tray.accepted.Keys
    ensures var after := IngestAll(gate, runId, tray, raws);
      && (id in after.accepted <==> exists i: nat :: FirstClaim(gate, raws, i, id))
      && (id in after.accepted <==> exists raw :: raw in raws && Claims(gate, raw, id))
      && forall i: nat :: FirstClaim(gate, raws, i, id) ==>
           && id in after.accepted && id in after.seen
           && after.accepted[id] == ValidateEvent(gate, raws[i]).value
           && after.seen[id] == SeenRow(IdentityFingerprint(gate, raws[i]), runId)
  {
    hide ValidateEvent, IdentityFingerprint, IngestOne, Claims;
    if raws != [] {
      var front, last := raws[..|raws| - 1], raws[|raws| - 1];
      assert raws == front + [last];
      FirstWriterWins(gate, runId, tray, front, id);
      IngestAllGrows(gate, runId, tray, front);
      var before := IngestAll(gate, runId, tray, front);
      IngestOneGrows(gate, runId, before, last);
      IngestOneClaims(gate, runId, before, last, id);
      forall i: nat ensures FirstClaim(gate, front, i, id) ==> FirstClaim(gate, raws, i, id) {
        if FirstClaim(gate, front, i, id) {
          assert raws[i] == front[i];
        }
      }
      forall i: nat | FirstClaim(gate, raws, i, id) && i < |front| ensures FirstClaim(gate, front, i, id) {
        assert raws[i] == front[i];
      }
      if Claims(gate, last, id) && id !in IngestAll(gate, runId, tray, front).accepted {
        assert FirstClaim(gate, raws, |front|, id) by {
          forall j | 0 <= j < |front| ensures !Claims(gate, raws[j], id) {
            assert raws[j] == front[j] && front[j] in front;
          }
        }
      }
      assert forall raw :: raw in raws <==> raw in front || raw == last;
    }
  }

  // ---- replay ----

  /** Nothing new is claimed by a batch. */
  ghost predicate AllSeen(gate: Gate, seen: map<string, SeenRow>, raws: seq<Raw>) {
    forall raw :: raw in raws && ValidateEvent(gate, raw).Ok? ==> ValidateEvent(gate, raw).value.eventId in seen
  }

  lemma {:induction false} ReplayAddsNothing(gate: Gate, runId: string, tray: Tray, raws: seq<Raw>)
    requires AllSeen(gate, tray.seen, raws)
    ensures IngestAll(gate, runId, tray, raws).seen == tray.seen
    ensures IngestAll(gate, runId, tray, raws).accepted == tray.accepted
  {
    hide ValidateEvent, IdentityFingerprint, EventOfIdentity;
    if raws != [] {
      assert raws[|raws| - 1] in raws;
      ReplayAddsNothing(gate, runId, tray, raws[..|raws| - 1]);
    }
  }

  // ---- counting ----

  function CountOf(counts: Counter, outcome: Outcome): OutcomeKey -> int {
    (key: OutcomeKey) => if key.outcome == outcome && key in counts then counts[key] else 0
  }

  ghost function Total(counts: Counter, outcome: Outcome): int {
    Sum(counts.Keys, CountOf(counts, outcome))
  }

  lemma BumpTotal(counts: Counter, key: OutcomeKey, outcome: Outcome)
    ensures Total(Bump(counts, key), outcome)
         == Total(counts, outcome) + if key.outcome == outcome then 1 else 0
  {
    var after := Bump(counts, key);
    var rest := counts.Keys - {key};
    assert after.Keys - {key} == rest;
    SumRemove(after.Keys, CountOf(after, outcome), key);
    SumCong(rest, CountOf(after, outcome), CountOf(counts, outcome));
    if key in counts {
      SumRemove(counts.Keys, CountOf(counts, outcome), key);
    } else {
      assert rest == counts.Keys;
    }
  }

  /** Every arrival is counted once: accepted, duplicate or quarantined. */
  lemma {:induction false} ArrivalsAreClassified(gate: Gate, runId: string, tray: Tray, raws: seq<Raw>)
    requires tray.seen.Keys == tray.accepted.Keys
    ensures var after := IngestAll(gate, runId, tray, raws);
      && Total(after.counts, Arrival) == Total(tray.counts, Arrival) + |raws|
      && Total(after.counts, Arrival) - Total(tray.counts, Arrival)
         == (Total(after.counts, AcceptedNew) - Total(tray.counts, AcceptedNew))
          + (Total(after.counts, Duplicate) - Total(tray.counts, Duplicate))
          + (Total(after.counts, Quarantined) - Total(tray.counts, Quarantined))
      && Total(after.counts, AcceptedNew) - Total(tray.counts, AcceptedNew) == |after.accepted| - |tray.accepted|
      && Total(after.counts, Quarantined) - Total(tray.counts, Quarantined)
         == |after.quarantine| - |tray.quarantine|
  {
    if raws != [] {
      var front, last := raws[..|raws| - 1], raws[|raws| - 1];
      ArrivalsAreClassified(gate, runId, tray, front);
      IngestAllGrows(gate, runId, tray, front);
      OneArrivalIsClassified(gate, runId, IngestAll(gate, runId, tray, front), last);
    }
  }

  lemma OneArrivalIsClassified(gate: Gate, runId: string, tray: Tray, raw: Raw)
    requires tray.seen.Keys == tray.accepted.Keys
    ensures var after := IngestOne(gate, runId, tray, raw);
      && Total(after.counts, Arrival) == Total(tray.counts, Arrival) + 1
      && (Total(after.counts, AcceptedNew) - Total(tray.counts, AcceptedNew))
       + (Total(after.counts, Duplicate) - Total(tray.counts, Duplicate))
       + (Total(after.counts, Quarantined) - Total(tray.counts, Quarantined)) == 1
      && Total(after.counts, AcceptedNew) - Total(tray.counts, AcceptedNew) == |after.accepted| - |tray.accepted|
      && Total(after.counts, Quarantined) - Total(tray.counts, Quarantined)
         == |after.quarantine| - |tray.quarantine|
  {
    hide ValidateEvent, IdentityFingerprint, EventOfIdentity;
    var counts := Bump(tray.counts, ARRIVED);
    forall o { BumpTotal(tray.counts, ARRIVED, o); }
    var key := match ValidateEvent(gate, raw)
      case Err(reason) => Refused(reason)
      case Ok(event) =>
        if event.eventId !in tray.seen then ACCEPTED
        else if tray.seen[event.eventId].identity == IdentityFingerprint(gate, raw) then REPLAYED
        else Refused(IdentityPayloadConflict);
    assert IngestOne(gate, runId, tray, raw).counts == Bump(counts, key);
    forall o { BumpTotal(counts, key, o); }
  }
}
