/**
 The contract gate: what a raw payment event must look like, the identity it carries and the
 privacy-safe event it becomes.

 Text parsing, case folding and keyed hashing are parameters of the gate (`Gate`), because their
 results, not their algorithms, matter here.  The SHA-256 of the canonical identity is modelled by
 the identity record itself, i.e. as an injective fingerprint.
 */
module Contracts {
  import opened Wrappers

  datatype Json =
    | Null
    | Bool(b: bool)
    | Number(n: int)
    | Fraction(literal: string)
    | Text(s: string)
    | Array(items: seq<Json>)
    | Object(fields: Raw)

  type Raw = map<string, Json>

  type Identity = map<string, Json>

  datatype EventType = Authorization | Capture | Refund | Chargeback

  datatype Source = Source(sourceId: string, mode: string, contract: string)

  /** Outcome of reading ISO-8601 text: unreadable, without a zone, or the normalised text. */
  datatype Timestamp = Malformed | Naive | Aware(iso: string)

  /** Everything the gate is configured with. */
  datatype Gate = Gate(
    registry: map<string, Source>,
    tokenKeyLength: nat,
    casefold: string -> string,
    normalizeEmail: string -> string,
    keyedHash: string -> string,
    parseTimestamp: string -> Timestamp
  )

  /** The schema version is the constant "1.0" in every accepted event and is not stored. */
  datatype PaymentEvent = PaymentEvent(
    eventId: string,
    transactionId: string,
    transactionVersion: int,
    sourceId: string,
    processorId: string,
    merchantId: string,
    eventType: EventType,
    amountMinor: int,
    currency: string,
    eventTime: string,
    receivedAt: string,
    customerToken: Option<string>
  )

  datatype Reason =
    | ProhibitedFields(names: set<string>)
    | MissingFields(names: set<string>)
    | UnexpectedFields(names: set<string>)
    | UnsupportedSchemaVersion
    | InvalidField(field: string)
    | TimezoneRequired(field: string)
    | UnknownSource
    | SourceContractMismatch
    | UnsupportedEventType
    | UnsupportedCurrency
    | TokenKeyTooShort
    | IdentityPayloadConflict
    | NonObjectEvent
    | InvalidCdcEnvelope
    | UnsupportedCdcTable
    | NonInsertOutboxMutation

  const SCHEMA_VERSION := "1.0"

  const CURRENCIES := ["INR", "USD", "EUR", "GBP"]

  const PROHIBITED_FIELDS := {
    "card_number", "cardnumber", "pan", "cvv", "cvc", "security_code", "track_data", "pin",
    "full_card_number"
  }

  const REQUIRED_FIELDS := {
    "schema_version", "event_id", "transaction_id", "transaction_version", "source_id",
    "processor_id", "merchant_id", "event_type", "amount_minor", "currency", "event_time",
    "received_at"
  }

  const ALLOWED_FIELDS := REQUIRED_FIELDS + {"customer_email"}

  const IDENTITY_FIELDS := {
    "schema_version", "event_id", "transaction_id", "transaction_version", "source_id",
    "processor_id", "merchant_id", "event_type", "amount_minor", "currency", "event_time",
    "customer_email"
  }

  const TOKEN_KEY_MINIMUM: nat := 32

  /** Card-security field names found at any depth, case-folded. */
  function Prohibited(gate: Gate, value: Json): set<string> {
    match value
    case Object(fields) =>
      (set name | name in fields && gate.casefold(name) in PROHIBITED_FIELDS :: gate.casefold(name))
      + (set name, found | name in fields && found in Prohibited(gate, fields[name]) :: found)
    case Array(items) =>
      set i, found | 0 <= i < |items| && found in Prohibited(gate, items[i]) :: found
    case _ => {}
  }

  function Lookup(raw: Raw, field: string): Json {
    if field in raw then raw[field] else Null
  }

  // ---- change-data-capture envelopes ----

  /** The business payload, a contract error, or a type error that is none. */
  datatype Extraction = Extracted(payload: Raw) | EnvelopeRefused(reason: Reason) | TypeFails

  /** Neither metadata nor data: the object is the event itself. */
  predicate IsDirect(raw: Raw) {
    Lookup(raw, "metadata") == Null && Lookup(raw, "data") == Null
  }

  /** Lists and objects cannot be looked up in a set of operations. */
  predicate Hashable(value: Json) {
    !value.Array? && !value.Object?
  }

  function ExtractBusinessPayload(raw: Raw): Extraction {
    var metadata, data := Lookup(raw, "metadata"), Lookup(raw, "data");
    if IsDirect(raw) then Extracted(raw)
    else if !metadata.Object? || !data.Object? then EnvelopeRefused(InvalidCdcEnvelope)
    else if Lookup(metadata.fields, "table-name") != Text("payment_outbox") then EnvelopeRefused(UnsupportedCdcTable)
    else
      var operation := Lookup(metadata.fields, "operation");
      if !Hashable(operation) then TypeFails
      else if operation != Text("insert") && operation != Text("load") then EnvelopeRefused(NonInsertOutboxMutation)
      else Extracted(data.fields)
  }

  /** An envelope without the content of its data. */
  function OutsideData(raw: Raw): Raw {
    raw["data" := Null]
  }

  lemma ProhibitedSplits(gate: Gate, raw: Raw)
    requires "data" in raw
    ensures Prohibited(gate, Object(raw)) == Prohibited(gate, Object(OutsideData(raw))) + Prohibited(gate, raw["data"])
  {
    var outside := OutsideData(raw);
    assert forall name :: name in raw && name != "data" ==> outside[name] == raw[name];
    forall found ensures found in Prohibited(gate, Object(raw))
                    <==> found in Prohibited(gate, Object(outside)) || found in Prohibited(gate, raw["data"])
    {
      AtTopOrBelow(gate, raw, found);
      AtTopOrBelow(gate, outside, found);
    }
  }

  lemma AtTopOrBelow(gate: Gate, raw: Raw, found: string)
    ensures found in Prohibited(gate, Object(raw))
       <==> || (exists name :: name in raw && gate.casefold(name) in PROHIBITED_FIELDS && found == gate.casefold(name))
            || (exists name :: name in raw && found in Prohibited(gate, raw[name]))
  {
  }

  // ---- redaction ----

  const SENSITIVE_FIELDS := PROHIBITED_FIELDS + {"customer_email"}

  const REDACTED := Text("<redacted>")

  /** Hides the value of every sensitive field at any depth and keeps everything else. */
  function Redact(gate: Gate, value: Json): Json {
    match value
    case Object(fields) =>
      Object(map name | name in fields ::
        if gate.casefold(name) in SENSITIVE_FIELDS then REDACTED else Redact(gate, fields[name]))
    case Array(items) => Array(seq(|items|, i requires 0 <= i < |items| => Redact(gate, items[i])))
    case _ => value
  }

  /** Every sensitive field at any depth holds the redaction mark. */
  ghost predicate ShowsNothingSensitive(gate: Gate, value: Json) {
    match value
    case Object(fields) =>
      forall name :: name in fields ==>
        if gate.casefold(name) in SENSITIVE_FIELDS then fields[name] == REDACTED
        else ShowsNothingSensitive(gate, fields[name])
    case Array(items) => forall i :: 0 <= i < |items| ==> ShowsNothingSensitive(gate, items[i])
    case _ => true
  }

  /** A redacted value shows nothing sensitive, and redaction changes a value only if it did. */
  lemma {:induction false} RedactionIsExact(gate: Gate, value: Json)
    ensures ShowsNothingSensitive(gate, Redact(gate, value))
    ensures Redact(gate, value) == value <==> ShowsNothingSensitive(gate, value)
  {
    match value
    case Object(fields) =>
      forall name | name in fields
        ensures ShowsNothingSensitive(gate, Redact(gate, fields[name]))
        ensures Redact(gate, fields[name]) == fields[name] <==> ShowsNothingSensitive(gate, fields[name])
      {
        RedactionIsExact(gate, fields[name]);
      }
      var redacted := Redact(gate, value).fields;
      if ShowsNothingSensitive(gate, value) { assert redacted == fields; }
      if redacted == fields {
        assert forall name :: name in fields ==> redacted[name] == fields[name];
      }
    case Array(items) =>
      forall i | 0 <= i < |items|
        ensures ShowsNothingSensitive(gate, Redact(gate, items[i]))
        ensures Redact(gate, items[i]) == items[i] <==> ShowsNothingSensitive(gate, items[i])
      {
        RedactionIsExact(gate, items[i]);
      }
      var redacted := Redact(gate, value).items;
      if ShowsNothingSensitive(gate, value) { assert redacted == items; }
      if redacted == items {
        assert forall i :: 0 <= i < |items| ==> redacted[i] == items[i];
      }
    case _ =>
  }

  predicate IdentifierChar(c: char) {
    'A' <= c <= 'Z' || 'a' <= c <= 'z' || '0' <= c <= '9' || c in "._:-"
  }

  predicate IsIdentifier(s: string) {
    1 <= |s| <= 128 && forall c :: c in s ==> IdentifierChar(c)
  }

  function ValidateIdentifier(value: Json, field: string): Result<string, Reason> {
    if value.Text? && IsIdentifier(value.s) then Ok(value.s) else Err(InvalidField(field))
  }

  function ParseTimestamp(gate: Gate, value: Json, field: string): Result<string, Reason> {
    if !value.Text? then Err(InvalidField(field)) else
      match gate.parseTimestamp(value.s)
      case Malformed => Err(InvalidField(field))
      case Naive => Err(TimezoneRequired(field))
      case Aware(iso) => Ok(iso)
  }

  function EventTypeOf(value: Json): Option<EventType> {
    if value == Text("authorization") then Some(Authorization)
    else if value == Text("capture") then Some(Capture)
    else if value == Text("refund") then Some(Refund)
    else if value == Text("chargeback") then Some(Chargeback)
    else None
  }

  function TokenizeCustomer(gate: Gate, email: Option<string>): Result<Option<string>, Reason> {
    if email.None? then Ok(None)
    else if gate.tokenKeyLength < TOKEN_KEY_MINIMUM then Err(TokenKeyTooShort)
    else Ok(Some(gate.keyedHash(gate.normalizeEmail(email.value))))
  }

  function ValidateEmail(raw: Raw): Result<Option<string>, Reason> {
    if "customer_email" !in raw || raw["customer_email"] == Null then Ok(None)
    else
      var email := raw["customer_email"];
      if email.Text? && '@' in email.s then Ok(Some(email.s)) else Err(InvalidField("customer_email"))
  }

  /** Shape of the payload: nothing prohibited, nothing missing, nothing extra, the known schema. */
  function ValidateShape(gate: Gate, raw: Raw): Result<Raw, Reason> {
    var prohibited := Prohibited(gate, Object(raw));
    if prohibited != {} then Err(ProhibitedFields(prohibited))
    else if REQUIRED_FIELDS - raw.Keys != {} then Err(MissingFields(REQUIRED_FIELDS - raw.Keys))
    else if raw.Keys - ALLOWED_FIELDS != {} then Err(UnexpectedFields(raw.Keys - ALLOWED_FIELDS))
    else if raw["schema_version"] != Text(SCHEMA_VERSION) then Err(UnsupportedSchemaVersion)
    else Ok(raw)
  }

  function ValidateEvent(gate: Gate, raw: Raw): Result<PaymentEvent, Reason> {
    var shaped :- ValidateShape(gate, raw);
    var eventId :- ValidateIdentifier(raw["event_id"], "event_id");
    var transactionId :- ValidateIdentifier(raw["transaction_id"], "transaction_id");
    var sourceId :- ValidateIdentifier(raw["source_id"], "source_id");
    var processorId :- ValidateIdentifier(raw["processor_id"], "processor_id");
    var merchantId :- ValidateIdentifier(raw["merchant_id"], "merchant_id");
    if sourceId !in gate.registry then Err(UnknownSource)
    else if gate.registry[sourceId].contract != "payment_event" then Err(SourceContractMismatch)
    else if !raw["transaction_version"].Number? || raw["transaction_version"].n < 1 then
      Err(InvalidField("transaction_version"))
    else if EventTypeOf(raw["event_type"]).None? then Err(UnsupportedEventType)
    else if !raw["amount_minor"].Number? || raw["amount_minor"].n <= 0 then Err(InvalidField("amount_minor"))
    else if !(raw["currency"].Text? && raw["currency"].s in CURRENCIES) then Err(UnsupportedCurrency)
    else
      var eventTime :- ParseTimestamp(gate, raw["event_time"], "event_time");
      var receivedAt :- ParseTimestamp(gate, raw["received_at"], "received_at");
      var email :- ValidateEmail(raw);
      var token :- TokenizeCustomer(gate, email);
      Ok(PaymentEvent(
           eventId, transactionId, raw["transaction_version"].n, sourceId, processorId, merchantId,
           EventTypeOf(raw["event_type"]).value, raw["amount_minor"].n, raw["currency"].s,
           eventTime, receivedAt, token))
  }

  /** The fields that identify a business mutation, with the customer e-mail normalised. */
  function IdentityFingerprint(gate: Gate, raw: Raw): Identity {
    map field | field in IDENTITY_FIELDS && field in raw ::
      if field == "customer_email" && raw[field].Text? then Text(gate.normalizeEmail(raw[field].s))
      else raw[field]
  }

  /** What every accepted event satisfies. */
  predicate WellFormed(e: PaymentEvent) {
    && IsIdentifier(e.eventId)
    && IsIdentifier(e.transactionId)
    && e.transactionVersion >= 1
    && e.amountMinor > 0
  }

  /** An event without its delivery time: everything that may influence money. */
  function Business(e: PaymentEvent): PaymentEvent {
    e.(receivedAt := "")
  }

  function TextAt(identity: Identity, field: string): string {
    if field in identity && identity[field].Text? then identity[field].s else ""
  }

  function NumberAt(identity: Identity, field: string): int {
    if field in identity && identity[field].Number? then identity[field].n else 0
  }

  /** Reads an event back from an identity record alone. */
  function EventOfIdentity(gate: Gate, identity: Identity): PaymentEvent {
    PaymentEvent(
      TextAt(identity, "event_id"), TextAt(identity, "transaction_id"),
      NumberAt(identity, "transaction_version"), TextAt(identity, "source_id"),
      TextAt(identity, "processor_id"), TextAt(identity, "merchant_id"),
      EventTypeOf(Text(TextAt(identity, "event_type"))).GetOr(Authorization),
      NumberAt(identity, "amount_minor"), TextAt(identity, "currency"),
      match gate.parseTimestamp(TextAt(identity, "event_time"))
      case Aware(iso) => iso
      case _ => "",
      "",
      if "customer_email" in identity && identity["customer_email"].Text?
      then Some(gate.keyedHash(identity["customer_email"].s)) else None)
  }

  /** Which raw field each part of a validated event was read from. */
  ghost predicate ReadFrom(gate: Gate, raw: Raw, e: PaymentEvent) {
    && REQUIRED_FIELDS <= raw.Keys
    && raw["event_id"] == Text(e.eventId)
    && raw["transaction_id"] == Text(e.transactionId)
    && raw["transaction_version"] == Number(e.transactionVersion)
    && raw["source_id"] == Text(e.sourceId)
    && raw["processor_id"] == Text(e.processorId)
    && raw["merchant_id"] == Text(e.merchantId)
    && raw["event_type"].Text? && EventTypeOf(raw["event_type"]) == Some(e.eventType)
    && raw["amount_minor"] == Number(e.amountMinor)
    && raw["currency"] == Text(e.currency)
    && raw["event_time"].Text? && gate.parseTimestamp(raw["event_time"].s) == Aware(e.eventTime)
    && (if "customer_email" in raw && raw["customer_email"].Text?
        then e.customerToken == Some(gate.keyedHash(gate.normalizeEmail(raw["customer_email"].s)))
        else e.customerToken == None)
  }

  /** The whole contract, stated field by field for the event that it admits. */
  ghost predicate Admits(gate: Gate, raw: Raw, e: PaymentEvent) {
    && Prohibited(gate, Object(raw)) == {}
    && raw.Keys <= ALLOWED_FIELDS
    && ReadFrom(gate, raw, e)
    && raw["schema_version"] == Text(SCHEMA_VERSION)
    && IsIdentifier(e.eventId) && IsIdentifier(e.transactionId) && IsIdentifier(e.sourceId)
    && IsIdentifier(e.processorId) && IsIdentifier(e.merchantId)
    && e.sourceId in gate.registry && gate.registry[e.sourceId].contract == "payment_event"
    && e.transactionVersion >= 1 && e.amountMinor > 0 && e.currency in CURRENCIES
    && raw["received_at"].Text? && gate.parseTimestamp(raw["received_at"].s) == Aware(e.receivedAt)
    && ("customer_email" in raw && raw["customer_email"] != Null ==>
          && raw["customer_email"].Text? && '@' in raw["customer_email"].s
          && gate.tokenKeyLength >= TOKEN_KEY_MINIMUM)
  }

  lemma ShapeIsExact(gate: Gate, raw: Raw)
    ensures ValidateShape(gate, raw).Ok? <==>
              && Prohibited(gate, Object(raw)) == {}
              && REQUIRED_FIELDS <= raw.Keys <= ALLOWED_FIELDS
              && raw["schema_version"] == Text(SCHEMA_VERSION)
    ensures ValidateShape(gate, raw).Ok? ==> ValidateShape(gate, raw) == Ok(raw)
  {
    assert REQUIRED_FIELDS - raw.Keys == {} <==> REQUIRED_FIELDS <= raw.Keys;
    assert raw.Keys - ALLOWED_FIELDS == {} <==> raw.Keys <= ALLOWED_FIELDS;
  }

  lemma CustomerIsExact(gate: Gate, raw: Raw, token: Option<string>)
    ensures ValidateEmail(raw).Ok? && TokenizeCustomer(gate, ValidateEmail(raw).value) == Ok(token) <==>
              && ("customer_email" in raw && raw["customer_email"] != Null ==>
                    && raw["customer_email"].Text? && '@' in raw["customer_email"].s
                    && gate.tokenKeyLength >= TOKEN_KEY_MINIMUM)
              && (if "customer_email" in raw && raw["customer_email"].Text?
                  then token == Some(gate.keyedHash(gate.normalizeEmail(raw["customer_email"].s)))
                  else token == None)
  {
  }

  lemma ValidatedEvent(gate: Gate, raw: Raw)
    requires ValidateEvent(gate, raw).Ok?
    ensures Admits(gate, raw, ValidateEvent(gate, raw).value)
    ensures WellFormed(ValidateEvent(gate, raw).value)
  {
    hide ValidateShape, Prohibited, ValidateEmail, TokenizeCustomer, IsIdentifier;
    ShapeIsExact(gate, raw);
    CustomerIsExact(gate, raw, ValidateEvent(gate, raw).value.customerToken);
  }

  lemma AdmittedEvent(gate: Gate, raw: Raw, e: PaymentEvent)
    requires Admits(gate, raw, e)
    ensures ValidateEvent(gate, raw) == Ok(e)
  {
    hide ValidateShape, Prohibited, ValidateEmail, TokenizeCustomer, IsIdentifier, EventTypeOf;
    ShapeIsExact(gate, raw);
    CustomerIsExact(gate, raw, e.customerToken);
  }

  /** The gate accepts a payload as an event exactly when the contract admits it as that event. */
  lemma ContractIsExact(gate: Gate, raw: Raw, e: PaymentEvent)
    ensures ValidateEvent(gate, raw) == Ok(e) <==> Admits(gate, raw, e)
  {
    if ValidateEvent(gate, raw) == Ok(e) { ValidatedEvent(gate, raw); }
    if Admits(gate, raw, e) { AdmittedEvent(gate, raw, e); }
  }

  lemma IdentityKeeps(gate: Gate, raw: Raw, field: string)
    requires REQUIRED_FIELDS <= raw.Keys
    requires field in IDENTITY_FIELDS && field != "customer_email"
    ensures field in IdentityFingerprint(gate, raw) && IdentityFingerprint(gate, raw)[field] == raw[field]
  {
    assert field in REQUIRED_FIELDS;
  }

  /** A validated event is determined by its identity, delivery time aside. */
  lemma IdentityDeterminesEvent(gate: Gate, raw: Raw)
    requires ValidateEvent(gate, raw).Ok?
    ensures Business(ValidateEvent(gate, raw).value) == EventOfIdentity(gate, IdentityFingerprint(gate, raw))
    ensures WellFormed(ValidateEvent(gate, raw).value)
  {
    ValidatedEvent(gate, raw);
    ReadBack(gate, raw, ValidateEvent(gate, raw).value);
  }

  lemma ReadBack(gate: Gate, raw: Raw, e: PaymentEvent)
    requires ReadFrom(gate, raw, e)
    ensures Business(e) == EventOfIdentity(gate, IdentityFingerprint(gate, raw))
  {
    IdentityKeeps(gate, raw, "event_id");
    IdentityKeeps(gate, raw, "transaction_id");
    IdentityKeeps(gate, raw, "transaction_version");
    IdentityKeeps(gate, raw, "source_id");
    IdentityKeeps(gate, raw, "processor_id");
    IdentityKeeps(gate, raw, "merchant_id");
    IdentityKeeps(gate, raw, "event_type");
    IdentityKeeps(gate, raw, "amount_minor");
    IdentityKeeps(gate, raw, "currency");
    IdentityKeeps(gate, raw, "event_time");
  }

  /** Two raw events that share an identity become the same event, delivery time aside. */
  lemma EqualIdentityEqualEvent(gate: Gate, first: Raw, second: Raw)
    requires ValidateEvent(gate, first).Ok? && ValidateEvent(gate, second).Ok?
    requires IdentityFingerprint(gate, first) == IdentityFingerprint(gate, second)
    ensures Business(ValidateEvent(gate, first).value) == Business(ValidateEvent(gate, second).value)
  {
    IdentityDeterminesEvent(gate, first);
    IdentityDeterminesEvent(gate, second);
  }
}
