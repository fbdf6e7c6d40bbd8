/** The generator end to end: what the store makes of everything the generator writes, for every shuffle. */
module SimulatorLaws {
  import opened Wrappers
  import opened Sums
  import opened Numerals
  import opened Contracts
  import opened Ledger
  import opened Intake
  import opened Runs
  import RunLaws
  import opened Simulator

  /** What the generator relies on: a long enough key, a calendar that reads its own text, plain field names. */
  ghost predicate Agrees(gate: Gate, clock: Clock) {
    && gate.tokenKeyLength >= TOKEN_KEY_MINIMUM
    && (forall t: nat :: t <= LAST_SECOND ==>
          gate.parseTimestamp(clock.isoformat(t)) == Aware(clock.isoformat(t))
          && clock.fromisoformat(clock.isoformat(t)) == t)
    && (forall name :: name in ALLOWED_FIELDS + {CARD_NUMBER} ==> gate.casefold(name) == name)
  }

  /** The gate knows the source as a payment source. */
  ghost predicate Serves(gate: Gate, sourceId: string) {
    IsIdentifier(sourceId) && sourceId in gate.registry && gate.registry[sourceId].contract == "payment_event"
  }

  // ---- identifiers ----

  lemma TransactionIdInjective(a: nat, b: nat)
    ensures TransactionId(a) == TransactionId(b) <==> a == b
  {
    if TransactionId(a) == TransactionId(b) {
      assert TransactionId(a)[4..] == Padded(a, 10) && TransactionId(b)[4..] == Padded(b, 10);
      PaddedInjective(a, b, 10);
    }
  }

  lemma GeneratedIdInjective(a: nat, v: nat, b: nat, w: nat)
    ensures GeneratedId(a, v) == GeneratedId(b, w) <==> a == b && v == w
  {
    if GeneratedId(a, v) == GeneratedId(b, w) {
      var x, y := "v" + Decimal(v), "v" + Decimal(w);
      assert x[1..] == Decimal(v) && y[1..] == Decimal(w);
      SplitAtLast(TransactionId(a), x, TransactionId(b), y, ':');
      DecimalInjective(v, w);
      TransactionIdInjective(a, b);
    }
  }

  lemma GeneratedIdentifiers(number: nat, version: nat)
    requires number <= LAST_SECOND && version < 10
    ensures IsIdentifier(TransactionId(number)) && IsIdentifier(GeneratedId(number, version))
    ensures IsIdentifier(ProcessorId(number)) && IsIdentifier(MerchantId(number))
  {
    assert PowerOfTen(12) == 1000000000000;
    PaddedLength(number, 10, 12);
    PaddedLength(number % 3 + 1, 2, 2);
    PaddedLength(number % 250, 3, 3);
  }

  // ---- one event is admitted ----

  predicate Sensible(d: Draft) {
    1 <= d.version < 10 && d.amountMinor > 0 && d.number <= LAST_SECOND && EventSecond(d) <= LAST_SECOND
  }

  function EventOf(gate: Gate, clock: Clock, d: Draft, received: nat): PaymentEvent {
    PaymentEvent(
      GeneratedId(d.number, d.version), TransactionId(d.number), d.version, d.sourceId, ProcessorId(d.number),
      MerchantId(d.number), d.eventType, d.amountMinor, CURRENCIES[d.number % |CURRENCIES|],
      clock.isoformat(EventSecond(d)), clock.isoformat(received),
      Some(gate.keyedHash(gate.normalizeEmail(EmailOf(d.number)))))
  }

  predicate IsScalar(value: Json) {
    !value.Object? && !value.Array?
  }

  lemma ProhibitedOnTop(gate: Gate, raw: Raw)
    requires forall name :: name in raw ==> IsScalar(raw[name]) && gate.casefold(name) == name
    ensures Prohibited(gate, Object(raw)) == raw.Keys * PROHIBITED_FIELDS
  {
  }

  lemma PayloadKeys(clock: Clock, d: Draft, received: nat)
    ensures Payload(clock, d, received).Keys == ALLOWED_FIELDS
  {
  }

  lemma NothingProhibited()
    ensures ALLOWED_FIELDS * PROHIBITED_FIELDS == {}
  {
  }

  lemma PayloadFields(clock: Clock, d: Draft, received: nat)
    ensures var raw := Payload(clock, d, received);
      && raw.Keys == ALLOWED_FIELDS
      && (forall name :: name in raw ==> IsScalar(raw[name]))
      && ALLOWED_FIELDS * PROHIBITED_FIELDS == {}
  {
    hide GeneratedId, TransactionId, ProcessorId, MerchantId, EmailOf, NameOf;
    PayloadKeys(clock, d, received);
    PayloadValues(clock, d, received);
    NothingProhibited();
  }

  lemma PayloadValues(clock: Clock, d: Draft, received: nat)
    ensures var raw := Payload(clock, d, received);
      && raw["schema_version"] == Text(SCHEMA_VERSION)
      && raw["event_id"] == Text(GeneratedId(d.number, d.version))
      && raw["transaction_id"] == Text(TransactionId(d.number))
      && raw["transaction_version"] == Number(d.version)
      && raw["source_id"] == Text(d.sourceId)
      && raw["processor_id"] == Text(ProcessorId(d.number))
      && raw["merchant_id"] == Text(MerchantId(d.number))
      && raw["event_type"] == Text(NameOf(d.eventType))
      && raw["amount_minor"] == Number(d.amountMinor)
      && raw["currency"] == Text(CURRENCIES[d.number % |CURRENCIES|])
      && raw["event_time"] == Text(clock.isoformat(EventSecond(d)))
      && raw["received_at"] == Text(clock.isoformat(received))
      && raw["customer_email"] == Text(EmailOf(d.number))
  {
    hide GeneratedId, TransactionId, ProcessorId, MerchantId, EmailOf, NameOf;
  }

  lemma EmailHasAt(number: nat)
    ensures '@' in EmailOf(number)
  {
    var at := "@example.test";
    assert at[0] == '@' && EmailOf(number)[|"customer" + Decimal(number % 10000)|] == at[0];
  }

  lemma NameIsRead(t: EventType)
    ensures EventTypeOf(Text(NameOf(t))) == Some(t)
  {
  }

  /** A generated event becomes exactly its draft, provided that its source is a known payment source. */
  lemma PayloadIsAdmitted(gate: Gate, clock: Clock, d: Draft, received: nat)
    requires Agrees(gate, clock) && Sensible(d) && received <= LAST_SECOND
    ensures ValidateEvent(gate, Payload(clock, d, received)).Ok? <==> Serves(gate, d.sourceId)
    ensures Serves(gate, d.sourceId) ==>
              ValidateEvent(gate, Payload(clock, d, received)) == Ok(EventOf(gate, clock, d, received))
  {
    hide ValidateEvent, Prohibited, IsIdentifier, GeneratedId, TransactionId, ProcessorId, MerchantId, EmailOf;
    hide Payload, NameOf, EventTypeOf;
    var raw := Payload(clock, d, received);
    PayloadFields(clock, d, received);
    PayloadValues(clock, d, received);
    ProhibitedOnTop(gate, raw);
    EmailHasAt(d.number);
    GeneratedIdentifiers(d.number, d.version);
    NameIsRead(d.eventType);
    if Serves(gate, d.sourceId) {
      AdmittedEvent(gate, raw, EventOf(gate, clock, d, received));
    }
    if ValidateEvent(gate, raw).Ok? {
      ValidatedEvent(gate, raw);
    }
  }

  // ---- the drafts of a generation ----

  /** The drafts of transactions 1 to `count` are exactly those of each of them, no two with one number and version. */
  lemma {:induction false} DraftsAre(sources: seq<Source>, count: nat)
    requires sources != []
    ensures forall d :: d in Drafts(sources, count) <==>
              1 <= d.number <= count && d in TransactionDrafts(d.number, SourceFor(sources, d.number))
    ensures IdsApart(Drafts(sources, count))
  {
    hide TransactionDrafts, SourceFor;
    if count > 0 {
      DraftsAre(sources, count - 1);
      var before, added := Drafts(sources, count - 1), TransactionDrafts(count, SourceFor(sources, count));
      TransactionIsNumbered(count, SourceFor(sources, count));
      assert forall d :: d in before + added <==> d in before || d in added;
      AppendedApart(before, added, count);
    }
  }

  lemma TransactionIsNumbered(number: nat, sourceId: string)
    ensures var drafts := TransactionDrafts(number, sourceId);
      && (forall i :: 0 <= i < |drafts| ==> drafts[i].number == number && drafts[i].version == i + 1)
      && (forall d :: d in drafts ==> d.number == number)
  {
  }

  lemma AppendedApart(before: seq<Draft>, added: seq<Draft>, number: nat)
    requires IdsApart(before) && forall d :: d in before ==> d.number < number
    requires forall i :: 0 <= i < |added| ==> added[i].number == number && added[i].version == i + 1
    ensures IdsApart(before + added)
  {
    assert forall i :: 0 <= i < |before| ==> before[i] in before;
  }

  ghost predicate IdsApart(drafts: seq<Draft>) {
    forall i, j :: 0 <= i < j < |drafts| ==> drafts[i].number != drafts[j].number || drafts[i].version != drafts[j].version
  }

  lemma DraftsAreSensible(sources: seq<Source>, count: nat, d: Draft)
    requires sources != [] && d in Drafts(sources, count) && Representable(d)
    ensures Sensible(d)
  {
    DraftsAre(sources, count);
  }

  // ---- ingesting the shuffled events ----

  function IdOf(d: Draft): string {
    GeneratedId(d.number, d.version)
  }

  function EventFor(gate: Gate, clock: Clock, d: Draft): PaymentEvent {
    EventOf(gate, clock, d, ReceivedSecond(d))
  }

  /** Drafts whose events are all admitted. */
  ghost predicate Sound(gate: Gate, drafts: seq<Draft>) {
    && IdsApart(drafts)
    && forall d :: d in drafts ==> Sensible(d) && Representable(d) && Serves(gate, d.sourceId)
  }

  /** An id is accepted exactly when it is a draft's, with that draft's event and identity. */
  ghost predicate UnderId(gate: Gate, clock: Clock, drafts: seq<Draft>, tray: Tray, id: string) {
    && (id in tray.accepted <==> exists d :: d in drafts && id == IdOf(d))
    && forall d :: d in drafts && id == IdOf(d) ==>
         && id in tray.accepted && tray.accepted[id] == EventFor(gate, clock, d)
         && id in tray.seen && tray.seen[id].identity == IdentityFingerprint(gate, RawOf(clock, d))
  }

  /** Exactly the drafts' events are accepted. */
  ghost predicate Holds(gate: Gate, clock: Clock, drafts: seq<Draft>, tray: Tray) {
    && |tray.accepted| == |drafts|
    && forall id :: UnderId(gate, clock, drafts, tray, id)
  }

  lemma HoldsAt(gate: Gate, clock: Clock, drafts: seq<Draft>, tray: Tray, d: Draft)
    requires Holds(gate, clock, drafts, tray) && d in drafts
    ensures IdOf(d) in tray.accepted && tray.accepted[IdOf(d)] == EventFor(gate, clock, d)
    ensures IdOf(d) in tray.seen && tray.seen[IdOf(d)].identity == IdentityFingerprint(gate, RawOf(clock, d))
  {
    hide IdOf, EventFor, IdentityFingerprint, RawOf;
    assert UnderId(gate, clock, drafts, tray, IdOf(d));
  }

  lemma ClaimIsDraft(gate: Gate, clock: Clock, d: Draft, id: string)
    requires Agrees(gate, clock) && Sensible(d) && Representable(d) && Serves(gate, d.sourceId)
    ensures Claims(gate, RawOf(clock, d), id) <==> id == IdOf(d)
    ensures ValidateEvent(gate, RawOf(clock, d)) == Ok(EventFor(gate, clock, d))
  {
    hide ValidateEvent, Payload, Agrees, Serves, GeneratedId;
    PayloadIsAdmitted(gate, clock, d, ReceivedSecond(d));
  }

  ghost predicate SameRaws(shuffled: seq<Raw>, valid: seq<Raw>) {
    multiset(shuffled) == multiset(valid)
  }

  lemma SameRawsContain(shuffled: seq<Raw>, valid: seq<Raw>, raw: Raw)
    requires SameRaws(shuffled, valid)
    ensures raw in shuffled <==> raw in valid
    ensures |shuffled| == |valid|
  {
    assert raw in multiset(shuffled) <==> raw in multiset(valid);
    assert |multiset(shuffled)| == |shuffled| && |multiset(valid)| == |valid|;
  }

  lemma PayloadOf(clock: Clock, drafts: seq<Draft>, raw: Raw)
    ensures raw in Payloads(clock, drafts) <==> exists d :: d in drafts && raw == RawOf(clock, d)
  {
    var payloads := Payloads(clock, drafts);
    if raw in payloads {
      var i :| 0 <= i < |payloads| && payloads[i] == raw;
      assert drafts[i] in drafts;
    }
    if d :| d in drafts && raw == RawOf(clock, d) {
      var i :| 0 <= i < |drafts| && drafts[i] == d;
      assert payloads[i] == raw;
    }
  }

  /** What ends up under one event id. */
  lemma AcceptedUnderId(gate: Gate, clock: Clock, runId: string, tray: Tray, drafts: seq<Draft>, shuffled: seq<Raw>, id: string)
    requires Agrees(gate, clock) && Sound(gate, drafts) && SameRaws(shuffled, Payloads(clock, drafts))
    requires tray.seen == map[] && tray.accepted == map[]
    ensures UnderId(gate, clock, drafts, IngestAll(gate, runId, tray, shuffled), id)
  {
    hide IngestAll, ValidateEvent, IdentityFingerprint, RawOf, Agrees, SameRaws, GeneratedId, EventFor;
    var after := IngestAll(gate, runId, tray, shuffled);
    FirstWriterWins(gate, runId, tray, shuffled, id);
    IngestAllGrows(gate, runId, tray, shuffled);
    forall raw | raw in shuffled && Claims(gate, raw, id)
      ensures exists d :: d in drafts && raw == RawOf(clock, d) && id == IdOf(d)
    {
      SameRawsContain(shuffled, Payloads(clock, drafts), raw);
      PayloadOf(clock, drafts, raw);
      var d :| d in drafts && raw == RawOf(clock, d);
      ClaimIsDraft(gate, clock, d, id);
    }
    forall d | d in drafts && id == IdOf(d)
      ensures id in after.accepted && after.accepted[id] == EventFor(gate, clock, d)
      ensures id in after.seen && after.seen[id].identity == IdentityFingerprint(gate, RawOf(clock, d))
    {
      PayloadOf(clock, drafts, RawOf(clock, d));
      SameRawsContain(shuffled, Payloads(clock, drafts), RawOf(clock, d));
      ClaimIsDraft(gate, clock, d, id);
      var i: nat :| FirstClaim(gate, shuffled, i, id);
      assert shuffled[i] in shuffled;
      var e :| e in drafts && shuffled[i] == RawOf(clock, e) && id == IdOf(e);
      OneDraft(drafts, d, e);
    }
  }

  lemma OneDraft(drafts: seq<Draft>, d: Draft, e: Draft)
    requires IdsApart(drafts) && d in drafts && e in drafts && IdOf(d) == IdOf(e)
    ensures d == e
  {
    GeneratedIdInjective(d.number, d.version, e.number, e.version);
    var i :| 0 <= i < |drafts| && drafts[i] == d;
    var j :| 0 <= j < |drafts| && drafts[j] == e;
  }

  function Ids(drafts: seq<Draft>): (ids: seq<string>)
    ensures |ids| == |drafts|
  {
    seq(|drafts|, i requires 0 <= i < |drafts| => IdOf(drafts[i]))
  }

  lemma IdsList(drafts: seq<Draft>, ids: set<string>)
    requires IdsApart(drafts)
    requires forall id :: id in ids <==> exists d :: d in drafts && id == IdOf(d)
    ensures |ids| == |drafts|
  {
    var listed := Ids(drafts);
    forall i, j | 0 <= i < j < |listed| ensures listed[i] != listed[j] {
      GeneratedIdInjective(drafts[i].number, drafts[i].version, drafts[j].number, drafts[j].version);
    }
    forall id ensures id in listed <==> id in ids {
      if id in ids {
        var d :| d in drafts && id == IdOf(d);
        var i :| 0 <= i < |drafts| && drafts[i] == d;
        assert listed[i] == id;
      }
      if id in listed {
        var i :| 0 <= i < |listed| && listed[i] == id;
        assert drafts[i] in drafts && id == IdOf(drafts[i]);
      }
    }
    ListingLength(listed, ids);
  }

  lemma ShuffledIsAccepted(gate: Gate, clock: Clock, runId: string, tray: Tray, drafts: seq<Draft>, shuffled: seq<Raw>)
    requires Agrees(gate, clock) && Sound(gate, drafts) && SameRaws(shuffled, Payloads(clock, drafts))
    requires tray == Tray(map[], map[], [], map[])
    ensures var after := IngestAll(gate, runId, tray, shuffled);
      Holds(gate, clock, drafts, after) && after.quarantine == []
  {
    hide IngestAll, Agrees, Sound, SameRaws, UnderId;
    var after := IngestAll(gate, runId, tray, shuffled);
    forall id ensures UnderId(gate, clock, drafts, after, id) {
      AcceptedUnderId(gate, clock, runId, tray, drafts, shuffled, id);
    }
    SoundIsApart(gate, drafts);
    AcceptedCount(gate, clock, drafts, after);
    NoneRefused(gate, runId, tray, shuffled, drafts, Payloads(clock, drafts));
  }

  lemma AcceptedCount(gate: Gate, clock: Clock, drafts: seq<Draft>, tray: Tray)
    requires IdsApart(drafts) && forall id :: UnderId(gate, clock, drafts, tray, id)
    ensures |tray.accepted| == |drafts|
  {
    hide IdOf, EventFor, IdentityFingerprint, RawOf;
    forall id ensures id in tray.accepted.Keys <==> exists d :: d in drafts && id == IdOf(d) {
      assert UnderId(gate, clock, drafts, tray, id);
    }
    IdsList(drafts, tray.accepted.Keys);
    assert |tray.accepted.Keys| == |tray.accepted|;
  }

  lemma SoundIsApart(gate: Gate, drafts: seq<Draft>)
    requires Sound(gate, drafts)
    ensures IdsApart(drafts)
  {
  }

  /** When as many events are accepted as arrived, nothing was refused. */
  lemma NoneRefused(gate: Gate, runId: string, tray: Tray, shuffled: seq<Raw>, drafts: seq<Draft>, valid: seq<Raw>)
    requires tray == Tray(map[], map[], [], map[])
    requires SameRaws(shuffled, valid) && |valid| == |drafts|
    requires |IngestAll(gate, runId, tray, shuffled).accepted| == |drafts|
    ensures IngestAll(gate, runId, tray, shuffled).quarantine == []
  {
    hide IngestAll, Total;
    var after := IngestAll(gate, runId, tray, shuffled);
    ArrivalsAreClassified(gate, runId, tray, shuffled);
    SameRawsContain(shuffled, valid, map[]);
    RunLaws.EmptyTotals();
    TotalsNonNegative(after.counts, Duplicate);
  }

  lemma TotalsNonNegative(counts: Counter, outcome: Outcome)
    ensures Total(counts, outcome) >= 0
  {
    SumNonNegative(counts.Keys, CountOf(counts, outcome));
  }

  // ---- ingesting the duplicates and the refused records ----

  lemma {:induction false} IngestAllConcat(gate: Gate, runId: string, tray: Tray, a: seq<Raw>, b: seq<Raw>)
    ensures IngestAll(gate, runId, tray, a + b) == IngestAll(gate, runId, IngestAll(gate, runId, tray, a), b)
    decreases |b|
  {
    if b == [] {
      assert a + b == a;
    } else {
      var last := |b| - 1;
      assert (a + b)[..|a + b| - 1] == a + b[..last];
      IngestAllConcat(gate, runId, tray, a, b[..last]);
    }
  }

  ghost predicate IsReplay(gate: Gate, tray: Tray, raw: Raw) {
    && ValidateEvent(gate, raw).Ok?
    && ValidateEvent(gate, raw).value.eventId in tray.seen
    && tray.seen[ValidateEvent(gate, raw).value.eventId].identity == IdentityFingerprint(gate, raw)
  }

  ghost predicate SameStores(a: Tray, b: Tray) {
    a.seen == b.seen && a.accepted == b.accepted && a.quarantine == b.quarantine
  }

  lemma ReplayKeepsStores(gate: Gate, runId: string, tray: Tray, raw: Raw)
    requires IsReplay(gate, tray, raw)
    ensures SameStores(IngestOne(gate, runId, tray, raw), tray)
  {
    hide ValidateEvent, IdentityFingerprint;
  }

  /** Exact duplicates change nothing but the counts. */
  lemma {:induction false} ReplaysKeepStores(gate: Gate, runId: string, tray: Tray, raws: seq<Raw>)
    requires forall raw :: raw in raws ==> IsReplay(gate, tray, raw)
    ensures SameStores(IngestAll(gate, runId, tray, raws), tray)
  {
    hide ValidateEvent, IdentityFingerprint, IngestOne;
    if raws != [] {
      var last := |raws| - 1;
      assert raws[last] in raws;
      ReplaysKeepStores(gate, runId, tray, raws[..last]);
      ReplayKeepsStores(gate, runId, IngestAll(gate, runId, tray, raws[..last]), raws[last]);
    }
  }

  lemma DuplicatesAreReplays(gate: Gate, clock: Clock, drafts: seq<Draft>, tray: Tray)
    requires Agrees(gate, clock) && Sound(gate, drafts) && Holds(gate, clock, drafts, tray)
    ensures forall raw :: raw in Duplicates(Payloads(clock, drafts)) ==> IsReplay(gate, tray, raw)
  {
    hide ValidateEvent, IdentityFingerprint, RawOf, Agrees, GeneratedId, Holds, EventFor;
    var valid := Payloads(clock, drafts);
    forall raw | raw in Duplicates(valid) ensures IsReplay(gate, tray, raw) {
      var i :| 0 <= i < |Duplicates(valid)| && Duplicates(valid)[i] == raw;
      assert raw == valid[2 * i];
      var d := drafts[2 * i];
      assert d in drafts;
      ClaimIsDraft(gate, clock, d, IdOf(d));
      HoldsAt(gate, clock, drafts, tray, d);
    }
  }

  /** Quarantine rows were added and nothing else changed. */
  ghost predicate Adds(before: Tray, after: Tray, rows: seq<QuarantineRow>) {
    && after.seen == before.seen && after.accepted == before.accepted
    && after.quarantine == before.quarantine + rows
  }

  lemma AddsThrough(a: Tray, b: Tray, c: Tray, first: seq<QuarantineRow>, second: seq<QuarantineRow>)
    requires Adds(a, b, first) && Adds(b, c, second)
    ensures Adds(a, c, first + second)
  {
  }

  lemma RefusalAddsRow(gate: Gate, runId: string, tray: Tray, raw: Raw, reason: Reason)
    requires ValidateEvent(gate, raw) == Err(reason)
    ensures Adds(tray, IngestOne(gate, runId, tray, raw),
                 [QuarantineRow(runId, RawEventId(raw), reason, Redact(gate, Object(raw)))])
  {
    hide ValidateEvent, Redact;
  }

  lemma ConflictIsPayload(clock: Clock, d: Draft)
    requires clock.fromisoformat(clock.isoformat(ReceivedSecond(d))) == ReceivedSecond(d)
    ensures HasAmountAndTime(RawOf(clock, d))
    ensures ConflictOf(clock, RawOf(clock, d)) == Payload(clock, d.(amountMinor := d.amountMinor + 1), ReceivedSecond(d) + 300)
  {
    hide GeneratedId, TransactionId, ProcessorId, MerchantId, EmailOf, NameOf;
    var conflict := ConflictOf(clock, RawOf(clock, d));
    var payload := Payload(clock, d.(amountMinor := d.amountMinor + 1), ReceivedSecond(d) + 300);
    assert conflict.Keys == payload.Keys;
  }

  lemma IdentitiesDiffer(gate: Gate, first: Raw, second: Raw)
    requires "amount_minor" in first && "amount_minor" in second && first["amount_minor"] != second["amount_minor"]
    ensures IdentityFingerprint(gate, first) != IdentityFingerprint(gate, second)
  {
    assert IdentityFingerprint(gate, first)["amount_minor"] == first["amount_minor"];
    assert IdentityFingerprint(gate, second)["amount_minor"] == second["amount_minor"];
  }

  lemma PayloadAmount(clock: Clock, d: Draft, received: nat)
    ensures "amount_minor" in Payload(clock, d, received)
    ensures Payload(clock, d, received)["amount_minor"] == Number(d.amountMinor)
  {
    PayloadValues(clock, d, received);
  }

  lemma ConflictAddsRow(gate: Gate, runId: string, tray: Tray, raw: Raw, id: string)
    requires Claims(gate, raw, id) && id in tray.seen
    requires tray.seen[id].identity != IdentityFingerprint(gate, raw)
    ensures Adds(tray, IngestOne(gate, runId, tray, raw),
                 [QuarantineRow(runId, Some(id), IdentityPayloadConflict, Redact(gate, Object(raw)))])
  {
    hide ValidateEvent, IdentityFingerprint, Redact;
  }

  /** The changed amount is a valid claim on the same id, under another identity. */
  lemma ConflictIsRival(gate: Gate, clock: Clock, d: Draft)
    requires Agrees(gate, clock) && Sensible(d) && Serves(gate, d.sourceId)
    requires ReceivedSecond(d) + 300 <= LAST_SECOND
    ensures HasAmountAndTime(RawOf(clock, d))
    ensures Claims(gate, ConflictOf(clock, RawOf(clock, d)), IdOf(d))
    ensures IdentityFingerprint(gate, ConflictOf(clock, RawOf(clock, d))) != IdentityFingerprint(gate, RawOf(clock, d))
  {
    hide ValidateEvent, IdentityFingerprint, Payload, GeneratedId, Serves, ConflictOf;
    var changed := d.(amountMinor := d.amountMinor + 1);
    ConflictIsPayload(clock, d);
    PayloadIsAdmitted(gate, clock, changed, ReceivedSecond(d) + 300);
    PayloadAmount(clock, d, ReceivedSecond(d));
    PayloadAmount(clock, changed, ReceivedSecond(d) + 300);
    IdentitiesDiffer(gate, RawOf(clock, d), ConflictOf(clock, RawOf(clock, d)));
  }

  lemma FixtureIdentifiers()
    ensures IsIdentifier("fixture:invalid-amount")
    ensures IsIdentifier("fixture:unsupported-schema")
    ensures IsIdentifier("fixture:prohibited-pan")
  {
  }

  lemma FixtureReasons(gate: Gate, clock: Clock, d: Draft)
    requires Agrees(gate, clock) && Sensible(d) && Representable(d) && Serves(gate, d.sourceId)
    ensures ValidateEvent(gate, InvalidAmountOf(RawOf(clock, d))) == Err(InvalidField("amount_minor"))
    ensures ValidateEvent(gate, UnsupportedOf(RawOf(clock, d))) == Err(UnsupportedSchemaVersion)
    ensures ValidateEvent(gate, ProhibitedOf(RawOf(clock, d))) == Err(ProhibitedFields({CARD_NUMBER}))
  {
    InvalidAmountReason(gate, clock, d);
    UnsupportedReason(gate, clock, d);
    ProhibitedReason(gate, clock, d);
  }

  /** Changing the ids of a generated event leaves a payload of scalars under plain names. */
  lemma RenamedFields(gate: Gate, clock: Clock, d: Draft, id: string)
    requires Agrees(gate, clock)
    ensures var raw := Renamed(RawOf(clock, d), id);
      && raw.Keys == ALLOWED_FIELDS
      && (forall name :: name in raw ==> IsScalar(raw[name]) && gate.casefold(name) == name)
      && ALLOWED_FIELDS * PROHIBITED_FIELDS == {}
  {
    hide Payload;
    PayloadFields(clock, d, ReceivedSecond(d));
    assert Renamed(RawOf(clock, d), id).Keys == RawOf(clock, d).Keys;
  }

  lemma UnsupportedReason(gate: Gate, clock: Clock, d: Draft)
    requires Agrees(gate, clock)
    ensures ValidateEvent(gate, UnsupportedOf(RawOf(clock, d))) == Err(UnsupportedSchemaVersion)
  {
    hide Prohibited, RawOf, ValidateIdentifier, Renamed;
    var raw := UnsupportedOf(RawOf(clock, d));
    RenamedFields(gate, clock, d, "fixture:unsupported-schema");
    assert raw.Keys == ALLOWED_FIELDS;
    ProhibitedOnTop(gate, raw);
  }

  lemma ProhibitedReason(gate: Gate, clock: Clock, d: Draft)
    requires Agrees(gate, clock)
    ensures ValidateEvent(gate, ProhibitedOf(RawOf(clock, d))) == Err(ProhibitedFields({CARD_NUMBER}))
  {
    hide Prohibited, RawOf, ValidateIdentifier, Renamed;
    var raw := ProhibitedOf(RawOf(clock, d));
    RenamedFields(gate, clock, d, "fixture:prohibited-pan");
    assert raw.Keys == ALLOWED_FIELDS + {CARD_NUMBER};
    ProhibitedOnTop(gate, raw);
    OneProhibited();
    ProhibitedFirst(gate, raw);
  }

  lemma OneProhibited()
    ensures (ALLOWED_FIELDS + {CARD_NUMBER}) * PROHIBITED_FIELDS == {CARD_NUMBER}
  {
    NothingProhibited();
    assert CARD_NUMBER in PROHIBITED_FIELDS;
  }

  lemma ProhibitedFirst(gate: Gate, raw: Raw)
    requires Prohibited(gate, Object(raw)) != {}
    ensures ValidateEvent(gate, raw) == Err(ProhibitedFields(Prohibited(gate, Object(raw))))
  {
    hide Prohibited, ValidateIdentifier;
  }

  lemma AmountRefused(gate: Gate, raw: Raw)
    requires ValidateShape(gate, raw).Ok? && REQUIRED_FIELDS <= raw.Keys
    requires forall name :: name in {"event_id", "transaction_id", "source_id", "processor_id", "merchant_id"} ==>
               raw[name].Text? && IsIdentifier(raw[name].s)
    requires Serves(gate, raw["source_id"].s)
    requires raw["transaction_version"].Number? && raw["transaction_version"].n >= 1
    requires EventTypeOf(raw["event_type"]).Some?
    requires raw["amount_minor"].Number? && raw["amount_minor"].n <= 0
    ensures ValidateEvent(gate, raw) == Err(InvalidField("amount_minor"))
  {
    hide ValidateShape, IsIdentifier, EventTypeOf;
  }

  lemma InvalidAmountFields(clock: Clock, d: Draft)
    ensures var raw := InvalidAmountOf(RawOf(clock, d));
      && raw.Keys == ALLOWED_FIELDS
      && raw["schema_version"] == Text(SCHEMA_VERSION)
      && raw["event_id"] == Text("fixture:invalid-amount") && raw["transaction_id"] == Text("fixture:invalid-amount")
      && raw["transaction_version"] == Number(d.version)
      && raw["source_id"] == Text(d.sourceId)
      && raw["processor_id"] == Text(ProcessorId(d.number)) && raw["merchant_id"] == Text(MerchantId(d.number))
      && raw["event_type"] == Text(NameOf(d.eventType))
      && raw["amount_minor"] == Number(-100)
  {
    hide Payload, ProcessorId, MerchantId, GeneratedId, TransactionId, NameOf, EmailOf;
    PayloadKeys(clock, d, ReceivedSecond(d));
    PayloadValues(clock, d, ReceivedSecond(d));
    assert InvalidAmountOf(RawOf(clock, d)).Keys == ALLOWED_FIELDS;
  }

  lemma InvalidAmountShape(gate: Gate, clock: Clock, d: Draft)
    requires Agrees(gate, clock)
    ensures ValidateShape(gate, InvalidAmountOf(RawOf(clock, d))).Ok?
  {
    hide Prohibited, RawOf, ValidateShape, Renamed;
    var raw := InvalidAmountOf(RawOf(clock, d));
    RenamedFields(gate, clock, d, "fixture:invalid-amount");
    InvalidAmountFields(clock, d);
    ProhibitedOnTop(gate, raw);
    ShapeIsExact(gate, raw);
  }

  lemma InvalidAmountReason(gate: Gate, clock: Clock, d: Draft)
    requires Agrees(gate, clock) && Sensible(d) && Serves(gate, d.sourceId)
    ensures ValidateEvent(gate, InvalidAmountOf(RawOf(clock, d))) == Err(InvalidField("amount_minor"))
  {
    hide Prohibited, RawOf, IsIdentifier, GeneratedId, TransactionId, ProcessorId, MerchantId, NameOf, EventTypeOf, EmailOf;
    hide ValidateShape, ValidateEvent, InvalidAmountOf;
    InvalidAmountFields(clock, d);
    InvalidAmountShape(gate, clock, d);
    FixtureIdentifiers();
    GeneratedIdentifiers(d.number, d.version);
    NameIsRead(d.eventType);
    AmountRefused(gate, InvalidAmountOf(RawOf(clock, d)));
  }

  /** The quarantine rows of the four refused records: their ids, reasons and redacted contents. */
  function FixtureRows(gate: Gate, runId: string, first: Draft, fixtures: seq<Raw>): seq<QuarantineRow>
    requires |fixtures| == 4
  {
    [QuarantineRow(runId, Some(IdOf(first)), IdentityPayloadConflict, Redact(gate, Object(fixtures[0]))),
     QuarantineRow(runId, Some("fixture:invalid-amount"), InvalidField("amount_minor"), Redact(gate, Object(fixtures[1]))),
     QuarantineRow(runId, Some("fixture:unsupported-schema"), UnsupportedSchemaVersion, Redact(gate, Object(fixtures[2]))),
     QuarantineRow(runId, Some("fixture:prohibited-pan"), ProhibitedFields({CARD_NUMBER}), Redact(gate, Object(fixtures[3])))]
  }

  lemma FixtureIds(clock: Clock, d: Draft)
    ensures RawEventId(InvalidAmountOf(RawOf(clock, d))) == Some("fixture:invalid-amount")
    ensures RawEventId(UnsupportedOf(RawOf(clock, d))) == Some("fixture:unsupported-schema")
    ensures RawEventId(ProhibitedOf(RawOf(clock, d))) == Some("fixture:prohibited-pan")
  {
    hide Payload;
  }

  lemma LastIngested(gate: Gate, runId: string, tray: Tray, raws: seq<Raw>, last: Raw)
    ensures IngestAll(gate, runId, tray, raws + [last]) == IngestOne(gate, runId, IngestAll(gate, runId, tray, raws), last)
  {
    hide IngestOne;
    assert (raws + [last])[..|raws|] == raws;
  }

  lemma FourIngested(gate: Gate, runId: string, tray: Tray, a: Raw, b: Raw, c: Raw, d: Raw)
    ensures IngestAll(gate, runId, tray, [a, b, c, d])
         == IngestOne(gate, runId, IngestOne(gate, runId, IngestOne(gate, runId, IngestOne(gate, runId, tray, a), b), c), d)
  {
    hide IngestOne;
    LastIngested(gate, runId, tray, [], a);
    LastIngested(gate, runId, tray, [a], b);
    LastIngested(gate, runId, tray, [a, b], c);
    LastIngested(gate, runId, tray, [a, b, c], d);
    assert [] + [a] == [a] && [a] + [b] == [a, b] && [a, b] + [c] == [a, b, c] && [a, b, c] + [d] == [a, b, c, d];
  }

  lemma FixturesAdd(gate: Gate, clock: Clock, runId: string, tray: Tray, d: Draft, e: Draft)
    requires Agrees(gate, clock)
    requires Sensible(d) && Serves(gate, d.sourceId) && ReceivedSecond(d) + 300 <= LAST_SECOND
    requires Sensible(e) && Representable(e) && Serves(gate, e.sourceId)
    requires IdOf(d) in tray.seen && tray.seen[IdOf(d)].identity == IdentityFingerprint(gate, RawOf(clock, d))
    ensures HasAmountAndTime(RawOf(clock, d))
    ensures var second := RawOf(clock, e);
      var fixtures := [ConflictOf(clock, RawOf(clock, d)), InvalidAmountOf(second), UnsupportedOf(second), ProhibitedOf(second)];
      Adds(tray, IngestAll(gate, runId, tray, fixtures), FixtureRows(gate, runId, d, fixtures))
  {
    hide ValidateEvent, IdentityFingerprint, Agrees, IngestAll, IngestOne, RawOf, ConflictOf, Serves, Sensible, Adds, Claims;
    hide IdOf, InvalidAmountOf, UnsupportedOf, ProhibitedOf, RawEventId, HasAmountAndTime, Representable, Redact;
    ConflictIsRival(gate, clock, d);
    FixtureReasons(gate, clock, e);
    FixtureIds(clock, e);
    var conflict, second := ConflictOf(clock, RawOf(clock, d)), RawOf(clock, e);
    var rows := FixtureRows(gate, runId, d, [conflict, InvalidAmountOf(second), UnsupportedOf(second), ProhibitedOf(second)]);
    var one := IngestOne(gate, runId, tray, conflict);
    ConflictAddsRow(gate, runId, tray, conflict, IdOf(d));
    var two := IngestOne(gate, runId, one, InvalidAmountOf(second));
    RefusalAddsRow(gate, runId, one, InvalidAmountOf(second), InvalidField("amount_minor"));
    AddsThrough(tray, one, two, [rows[0]], [rows[1]]);
    var three := IngestOne(gate, runId, two, UnsupportedOf(second));
    RefusalAddsRow(gate, runId, two, UnsupportedOf(second), UnsupportedSchemaVersion);
    AddsThrough(tray, two, three, [rows[0]] + [rows[1]], [rows[2]]);
    var four := IngestOne(gate, runId, three, ProhibitedOf(second));
    RefusalAddsRow(gate, runId, three, ProhibitedOf(second), ProhibitedFields({CARD_NUMBER}));
    AddsThrough(tray, three, four, [rows[0]] + [rows[1]] + [rows[2]], [rows[3]]);
    assert [rows[0]] + [rows[1]] + [rows[2]] + [rows[3]] == rows;
    FourIngested(gate, runId, tray, conflict, InvalidAmountOf(second), UnsupportedOf(second), ProhibitedOf(second));
  }

  lemma FixturesAreRefused(gate: Gate, clock: Clock, runId: string, tray: Tray, drafts: seq<Draft>)
    requires Agrees(gate, clock) && Sound(gate, drafts) && Holds(gate, clock, drafts, tray) && |drafts| >= 2
    requires ReceivedSecond(drafts[0]) + 300 <= LAST_SECOND
    ensures HasAmountAndTime(Payloads(clock, drafts)[0])
    ensures var fixtures := Fixtures(clock, Payloads(clock, drafts));
      Adds(tray, IngestAll(gate, runId, tray, fixtures), FixtureRows(gate, runId, drafts[0], fixtures))
  {
    hide IdentityFingerprint, Agrees, IngestAll, RawOf, ConflictOf, Serves, Sensible, Adds, Holds, IdOf, EventFor;
    hide InvalidAmountOf, UnsupportedOf, ProhibitedOf, HasAmountAndTime, Representable, FixtureRows;
    var d, e := drafts[0], drafts[1];
    assert d in drafts && e in drafts;
    HoldsAt(gate, clock, drafts, tray, d);
    FixturesAdd(gate, clock, runId, tray, d, e);
  }

  lemma StoresHold(gate: Gate, clock: Clock, drafts: seq<Draft>, a: Tray, b: Tray)
    requires Holds(gate, clock, drafts, a) && a.seen == b.seen && a.accepted == b.accepted
    ensures Holds(gate, clock, drafts, b)
  {
    hide IdentityFingerprint, RawOf, EventFor, IdOf;
    forall id ensures UnderId(gate, clock, drafts, b, id) {
      assert UnderId(gate, clock, drafts, a, id);
    }
  }

  /** After all arrivals: exactly the drafts' events are accepted and exactly four records are quarantined. */
  lemma ArrivalsIngested(gate: Gate, clock: Clock, runId: string, drafts: seq<Draft>, shuffled: seq<Raw>)
    requires Agrees(gate, clock) && Sound(gate, drafts) && |drafts| >= 2
    requires ReceivedSecond(drafts[0]) + 300 <= LAST_SECOND
    requires SameRaws(shuffled, Payloads(clock, drafts))
    ensures HasAmountAndTime(Payloads(clock, drafts)[0])
    ensures var after := IngestAll(gate, runId, Opening(EMPTY_DATABASE), Arrivals(clock, Payloads(clock, drafts), shuffled));
      && Holds(gate, clock, drafts, after)
      && after.quarantine == FixtureRows(gate, runId, drafts[0], Fixtures(clock, Payloads(clock, drafts)))
  {
    hide Agrees, Sound, Holds, IngestAll, SameRaws, RawOf, HasAmountAndTime, Duplicates, FixtureRows;
    hide ConflictOf, InvalidAmountOf, UnsupportedOf, ProhibitedOf;
    var start, valid := Opening(EMPTY_DATABASE), Payloads(clock, drafts);
    var one := IngestAll(gate, runId, start, shuffled);
    ShuffledIsAccepted(gate, clock, runId, start, drafts, shuffled);
    var two := IngestAll(gate, runId, one, Duplicates(valid));
    DuplicatesAreReplays(gate, clock, drafts, one);
    ReplaysKeepStores(gate, runId, one, Duplicates(valid));
    StoresHold(gate, clock, drafts, one, two);
    FixturesAreRefused(gate, clock, runId, two, drafts);
    var three := IngestAll(gate, runId, two, Fixtures(clock, valid));
    StoresHold(gate, clock, drafts, two, three);
    IngestAllConcat(gate, runId, start, shuffled, Duplicates(valid));
    IngestAllConcat(gate, runId, start, shuffled + Duplicates(valid), Fixtures(clock, valid));
  }

  // ---- what a generated transaction looks like ----

  /** The delivery follows the event within four minutes. */
  ghost predicate Prompt(d: Draft) {
    EventSecond(d) <= ReceivedSecond(d) < EventSecond(d) + 240
  }

  /**
   A generated transaction authorizes and captures one amount of 100.00 to 4999.99 units; every fifth one refunds a quarter of
   it and every other seventh one charges back a fifth.  Its events are a minute apart and delivered promptly.
   */
  lemma TransactionShape(number: nat, sourceId: string)
    ensures var drafts := TransactionDrafts(number, sourceId);
      && (forall i :: 0 <= i < |drafts| ==>
            && drafts[i].number == number && drafts[i].sourceId == sourceId && drafts[i].version == i + 1
            && Prompt(drafts[i]) && EventSecond(drafts[i]) == EventSecond(drafts[0]) + 60 * i)
      && drafts[0].eventType == Authorization && drafts[1].eventType == Capture
      && drafts[0].amountMinor == drafts[1].amountMinor && 10000 <= drafts[0].amountMinor < 500000
      && (|drafts| == 3 <==> number % 5 == 0 || number % 7 == 0)
      && (|drafts| == 3 ==>
            && drafts[2].eventType == (if number % 5 == 0 then Refund else Chargeback)
            && var share := if number % 5 == 0 then 4 else 5;
            drafts[2].amountMinor * share <= drafts[1].amountMinor < (drafts[2].amountMinor + 1) * share)
  {
    hide Padded, Decimal;
    var drafts := TransactionDrafts(number, sourceId);
    forall i | 0 <= i < |drafts| ensures Prompt(drafts[i]) {}
  }

  lemma ModuloShift(k: nat, n: nat)
    requires n > 0
    ensures (k + n) % n == k % n
  {
    var q, r := k / n, k % n;
    assert k == q * n + r;
    assert k + n == (q + 1) * n + r;
    UniqueRemainder(k + n, n, q + 1, r);
  }

  lemma UniqueRemainder(k: int, n: int, q: int, r: int)
    requires n > 0 && k == q * n + r && 0 <= r < n
    ensures k % n == r
  {
    NoMultipleBetween(k / n - q, n, r - k % n);
  }

  lemma NoMultipleBetween(d: int, n: int, difference: int)
    requires -n < difference < n && d * n == difference
    ensures difference == 0
  {
    if d >= 1 { Multiple(d, n); }
    if d <= -1 { Multiple(-d, n); }
  }

  lemma Multiple(d: int, n: int)
    requires d >= 1 && n > 0
    ensures d * n >= n
  {
  }

  lemma RemainderAway(k: nat, n: nat)
    requires n > 0
    ensures (k - k % n) % n == 0
  {
    UniqueRemainder(k - k % n, n, k / n, 0);
  }

  /** Amounts and delays step through their ranges by fixed strides. */
  lemma AmountsAndDelaysStep(d: Draft)
    ensures 10000 <= AmountOf(d.number) < 500000 && (7919 * d.number - (AmountOf(d.number) - 10000)) % 490000 == 0
    ensures Prompt(d) && (17 * d.number + 11 * d.version - (ReceivedSecond(d) - EventSecond(d))) % 240 == 0
  {
    RemainderAway(d.number * 7919, 490000);
    RemainderAway(d.number * 17 + d.version * 11, 240);
  }

  /** Sources take turns: the first n transactions go to the n sources in order, and then again. */
  lemma SourcesTakeTurns(sources: seq<Source>, number: nat)
    requires sources != [] && number >= 1
    ensures number <= |sources| ==> SourceFor(sources, number) == sources[number - 1].sourceId
    ensures SourceFor(sources, number + |sources|) == SourceFor(sources, number)
  {
    ModuloShift(number - 1, |sources|);
    if number <= |sources| { UniqueRemainder(number - 1, |sources|, 0, number - 1); }
  }

  /** The k-th duplicate repeats every other record of the prefix; a small prefix is still covered. */
  lemma DuplicatesAre(valid: seq<Raw>)
    ensures forall k :: 0 <= k < |Duplicates(valid)| ==> 2 * k < |valid| && Duplicates(valid)[k] == valid[2 * k]
    ensures |valid| >= 4 ==> |Duplicates(valid)| >= 2
    ensures |valid| >= 1200 ==> 2 * |Duplicates(valid)| - 1 <= |valid| / 300 <= 2 * |Duplicates(valid)|
  {
  }

  /** Processors, merchants and customers repeat with periods 3, 250 and 10000, and never sooner. */
  lemma PartiesRepeat(a: nat, b: nat)
    ensures ProcessorId(a) == ProcessorId(b) <==> a % 3 == b % 3
    ensures MerchantId(a) == MerchantId(b) <==> a % 250 == b % 250
    ensures EmailOf(a) == EmailOf(b) <==> a % 10000 == b % 10000
  {
    hide Padded, Decimal;
    if Padded(a % 3 + 1, 2) == Padded(b % 3 + 1, 2) { PaddedInjective(a % 3 + 1, b % 3 + 1, 2); }
    if Padded(a % 250, 3) == Padded(b % 250, 3) { PaddedInjective(a % 250, b % 250, 3); }
    if Decimal(a % 10000) == Decimal(b % 10000) { DecimalInjective(a % 10000, b % 10000); }
    AfterPrefix("processor-", Padded(a % 3 + 1, 2), Padded(b % 3 + 1, 2));
    AfterPrefix("merchant-", Padded(a % 250, 3), Padded(b % 250, 3));
    AfterPrefix("customer", Decimal(a % 10000) + "@example.test", Decimal(b % 10000) + "@example.test");
    assert EmailOf(a) == "customer" + (Decimal(a % 10000) + "@example.test");
    assert EmailOf(b) == "customer" + (Decimal(b % 10000) + "@example.test");
    BeforeSuffix(Decimal(a % 10000), Decimal(b % 10000), "@example.test");
  }

  lemma AfterPrefix(prefix: string, a: string, b: string)
    ensures prefix + a == prefix + b <==> a == b
  {
    assert (prefix + a)[|prefix|..] == a && (prefix + b)[|prefix|..] == b;
  }

  lemma BeforeSuffix(a: string, b: string, suffix: string)
    ensures a + suffix == b + suffix <==> a == b
  {
    if a + suffix == b + suffix {
      assert |a| == |b|;
      assert (a + suffix)[..|a|] == a && (b + suffix)[..|b|] == b;
    }
  }
}
