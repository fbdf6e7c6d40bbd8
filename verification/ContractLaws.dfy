/**
 The contract gate seen from outside: which raw events share an identity, what opens an envelope, where card data is
 found and what redaction leaves, and for which reason a payload is refused.  Every condition is about the raw
 object's own fields.
 */
module ContractLaws {
  import opened Wrappers
  import opened Contracts

  // ---- identity ----

  ghost predicate SameAt(a: Raw, b: Raw, field: string) {
    (field in a <==> field in b) && (field in a ==> a[field] == b[field])
  }

  ghost predicate SameEmail(gate: Gate, a: Raw, b: Raw) {
    && ("customer_email" in a <==> "customer_email" in b)
    && ("customer_email" in a ==>
          || a["customer_email"] == b["customer_email"]
          || (a["customer_email"].Text? && b["customer_email"].Text?
              && gate.normalizeEmail(a["customer_email"].s) == gate.normalizeEmail(b["customer_email"].s)))
  }

  /** The same business mutation: all fields but the delivery time agree, the e-mail up to normalisation. */
  ghost predicate SameMutation(gate: Gate, a: Raw, b: Raw) {
    && SameAt(a, b, "schema_version") && SameAt(a, b, "event_id") && SameAt(a, b, "transaction_id")
    && SameAt(a, b, "transaction_version") && SameAt(a, b, "source_id") && SameAt(a, b, "processor_id")
    && SameAt(a, b, "merchant_id") && SameAt(a, b, "event_type") && SameAt(a, b, "amount_minor")
    && SameAt(a, b, "currency") && SameAt(a, b, "event_time") && SameEmail(gate, a, b)
  }

  lemma IdentityAt(gate: Gate, raw: Raw, field: string)
    ensures field in IdentityFingerprint(gate, raw) <==> field in IDENTITY_FIELDS && field in raw
    ensures field in IdentityFingerprint(gate, raw) ==>
              IdentityFingerprint(gate, raw)[field]
              == if field == "customer_email" && raw[field].Text? then Text(gate.normalizeEmail(raw[field].s)) else raw[field]
  {
  }

  lemma SameIdentityAt(gate: Gate, a: Raw, b: Raw, field: string)
    requires IdentityFingerprint(gate, a) == IdentityFingerprint(gate, b) && field in IDENTITY_FIELDS
    ensures if field == "customer_email" then SameEmail(gate, a, b) else SameAt(a, b, field)
  {
    hide IdentityFingerprint;
    IdentityAt(gate, a, field);
    IdentityAt(gate, b, field);
  }

  /** Two raw events share an identity exactly if they state the same business mutation. */
  lemma FingerprintIsExact(gate: Gate, a: Raw, b: Raw)
    ensures IdentityFingerprint(gate, a) == IdentityFingerprint(gate, b) <==> SameMutation(gate, a, b)
  {
    hide IdentityFingerprint, SameAt, SameEmail;
    var first, second := IdentityFingerprint(gate, a), IdentityFingerprint(gate, b);
    if first == second {
      forall field | field in IDENTITY_FIELDS
        ensures if field == "customer_email" then SameEmail(gate, a, b) else SameAt(a, b, field)
      {
        SameIdentityAt(gate, a, b, field);
      }
    }
    if SameMutation(gate, a, b) {
      forall field ensures (field in first <==> field in second) && (field in first ==> first[field] == second[field]) {
        SameMutationAt(gate, a, b, field);
      }
    }
  }

  lemma SameMutationAt(gate: Gate, a: Raw, b: Raw, field: string)
    requires SameMutation(gate, a, b)
    ensures var first, second := IdentityFingerprint(gate, a), IdentityFingerprint(gate, b);
      (field in first <==> field in second) && (field in first ==> first[field] == second[field])
  {
    hide IdentityFingerprint;
    IdentityAt(gate, a, field);
    IdentityAt(gate, b, field);
  }

  /** The identity is everything admitted but the delivery time, nothing admitted is card data, and redaction covers both. */
  lemma FieldSetsFit()
    ensures IDENTITY_FIELDS == ALLOWED_FIELDS - {"received_at"}
    ensures ALLOWED_FIELDS == REQUIRED_FIELDS + {"customer_email"} && "customer_email" !in REQUIRED_FIELDS
    ensures ALLOWED_FIELDS !! PROHIBITED_FIELDS
    ensures {"pan", "card_number", "full_card_number", "cvv", "cvc", "security_code", "pin", "track_data"} <= PROHIBITED_FIELDS
    ensures SENSITIVE_FIELDS == PROHIBITED_FIELDS + {"customer_email"}
  {
  }

  function Redelivered(raw: Raw, receivedAt: Json): Raw {
    raw["received_at" := receivedAt]
  }

  /** A redelivery keeps the identity, whatever its delivery time. */
  lemma RedeliveryKeepsIdentity(gate: Gate, raw: Raw, receivedAt: Json)
    ensures IdentityFingerprint(gate, Redelivered(raw, receivedAt)) == IdentityFingerprint(gate, raw)
  {
    var field := "received_at";
    assert field[0] == 'r';
    FingerprintIsExact(gate, Redelivered(raw, receivedAt), raw);
  }

  // ---- envelopes ----

  predicate Absent(raw: Raw, field: string) {
    field !in raw || raw[field] == Null
  }

  predicate HasObject(raw: Raw, field: string) {
    field in raw && raw[field].Object?
  }

  predicate HasText(raw: Raw, field: string, text: string) {
    field in raw && raw[field] == Text(text)
  }

  predicate DirectEvent(raw: Raw) {
    Absent(raw, "metadata") && Absent(raw, "data")
  }

  predicate EnvelopeShape(raw: Raw) {
    HasObject(raw, "metadata") && HasObject(raw, "data")
  }

  predicate OutboxTable(raw: Raw)
    requires EnvelopeShape(raw)
  {
    HasText(raw["metadata"].fields, "table-name", "payment_outbox")
  }

  predicate InsertOrLoad(raw: Raw)
    requires EnvelopeShape(raw)
  {
    HasText(raw["metadata"].fields, "operation", "insert") || HasText(raw["metadata"].fields, "operation", "load")
  }

  /** The operation is a list or an object. */
  predicate CompoundOperation(raw: Raw)
    requires EnvelopeShape(raw)
  {
    var metadata := raw["metadata"].fields;
    "operation" in metadata && (metadata["operation"].Array? || metadata["operation"].Object?)
  }

  /** The payload is the direct event itself, or the data of an envelope that inserts or loads an outbox row. */
  ghost predicate OpensAs(raw: Raw, payload: Raw) {
    if DirectEvent(raw) then payload == raw
    else EnvelopeShape(raw) && OutboxTable(raw) && InsertOrLoad(raw) && raw["data"] == Object(payload)
  }

  ghost predicate RefusedEnvelope(raw: Raw, reason: Reason) {
    match reason
    case InvalidCdcEnvelope => !DirectEvent(raw) && !EnvelopeShape(raw)
    case UnsupportedCdcTable => EnvelopeShape(raw) && !OutboxTable(raw)
    case NonInsertOutboxMutation =>
      EnvelopeShape(raw) && OutboxTable(raw) && !InsertOrLoad(raw) && !CompoundOperation(raw)
    case _ => false
  }

  /** Which payload, if any, an object yields, and why it yields none. */
  lemma ExtractionIsExact(raw: Raw)
    ensures forall payload :: ExtractBusinessPayload(raw) == Extracted(payload) <==> OpensAs(raw, payload)
    ensures forall reason :: ExtractBusinessPayload(raw) == EnvelopeRefused(reason) <==> RefusedEnvelope(raw, reason)
    ensures ExtractBusinessPayload(raw) == TypeFails <==> EnvelopeShape(raw) && OutboxTable(raw) && CompoundOperation(raw)
  {
  }

  // ---- card data and redaction, place by place ----

  datatype Place = Key(name: string) | Item(index: nat)

  /** The part of a value at the end of a path. */
  function Follow(value: Json, path: seq<Place>): Option<Json> {
    if path == [] then Some(value)
    else
      match path[0]
      case Key(name) =>
        if value.Object? && name in value.fields then Follow(value.fields[name], path[1..]) else None
      case Item(index) =>
        if value.Array? && index < |value.items| then Follow(value.items[index], path[1..]) else None
  }

  /** An object at the end of the path has a field of that name, case folding aside. */
  ghost predicate HoldsField(gate: Gate, value: Json, path: seq<Place>, folded: string) {
    && Follow(value, path).Some? && Follow(value, path).value.Object?
    && exists name :: name in Follow(value, path).value.fields && gate.casefold(name) == folded
  }

  lemma {:induction false} FoundSomewhere(gate: Gate, value: Json, found: string) returns (path: seq<Place>)
    requires found in Prohibited(gate, value)
    ensures found in PROHIBITED_FIELDS && HoldsField(gate, value, path, found)
  {
    match value
    case Object(fields) =>
      if name :| name in fields && gate.casefold(name) in PROHIBITED_FIELDS && found == gate.casefold(name) {
        path := [];
        assert Follow(value, path) == Some(value);
      } else {
        var name :| name in fields && found in Prohibited(gate, fields[name]);
        var rest := FoundSomewhere(gate, fields[name], found);
        path := [Key(name)] + rest;
        assert Follow(value, path) == Follow(fields[name], rest);
      }
    case Array(items) =>
      var i :| 0 <= i < |items| && found in Prohibited(gate, items[i]);
      var rest := FoundSomewhere(gate, items[i], found);
      path := [Item(i)] + rest;
      assert Follow(value, path) == Follow(items[i], rest);
    case _ => path := [];
  }

  lemma {:induction false} FoundFromBelow(gate: Gate, value: Json, path: seq<Place>, folded: string)
    requires folded in PROHIBITED_FIELDS && HoldsField(gate, value, path, folded)
    ensures folded in Prohibited(gate, value)
  {
    if path != [] {
      match path[0]
      case Key(name) => FoundFromBelow(gate, value.fields[name], path[1..], folded);
      case Item(index) => FoundFromBelow(gate, value.items[index], path[1..], folded);
    }
  }

  /** A card field is found exactly if it occurs at some depth, inside objects and lists. */
  lemma ProhibitedIsExact(gate: Gate, value: Json, folded: string)
    ensures folded in Prohibited(gate, value)
       <==> folded in PROHIBITED_FIELDS && exists path :: HoldsField(gate, value, path, folded)
  {
    if folded in Prohibited(gate, value) {
      var path := FoundSomewhere(gate, value, folded);
    }
    if folded in PROHIBITED_FIELDS && exists path :: HoldsField(gate, value, path, folded) {
      var path :| HoldsField(gate, value, path, folded);
      FoundFromBelow(gate, value, path, folded);
    }
  }

  ghost predicate SensitivePlace(gate: Gate, place: Place) {
    place.Key? && gate.casefold(place.name) in SENSITIVE_FIELDS
  }

  /** What remains visible at a place that was there before. */
  ghost predicate Untouched(before: Json, after: Json) {
    match before
    case Object(fields) => after.Object? && after.fields.Keys == fields.Keys
    case Array(items) => after.Array? && |after.items| == |items|
    case _ => after == before
  }

  /** The sensitive fields of an object show the redaction mark. */
  ghost predicate ShowsMarks(gate: Gate, before: Json, after: Json) {
    before.Object? && after.Object? ==>
      forall name :: name in before.fields && gate.casefold(name) in SENSITIVE_FIELDS ==>
        name in after.fields && after.fields[name] == REDACTED
  }

  /**
   Redaction, place by place: off the sensitive fields every place keeps its keys, length or value, a sensitive field
   shows the mark, and no place is added.
   */
  lemma {:induction false} RedactionPlaceByPlace(gate: Gate, value: Json, path: seq<Place>)
    requires forall place :: place in path ==> !SensitivePlace(gate, place)
    ensures Follow(Redact(gate, value), path).Some? <==> Follow(value, path).Some?
    ensures Follow(value, path).Some? ==> Untouched(Follow(value, path).value, Follow(Redact(gate, value), path).value)
    ensures Follow(value, path).Some? ==>
              ShowsMarks(gate, Follow(value, path).value, Follow(Redact(gate, value), path).value)
  {
    if path != [] {
      var rest := path[1..];
      assert !SensitivePlace(gate, path[0]) && forall place :: place in rest ==> place in path;
      match path[0]
      case Key(name) =>
        if value.Object? && name in value.fields { RedactionPlaceByPlace(gate, value.fields[name], rest); }
      case Item(index) =>
        if value.Array? && index < |value.items| { RedactionPlaceByPlace(gate, value.items[index], rest); }
    }
  }

  // ---- identifiers ----

  /** Digits, letters, hyphen, full stop, colon and underscore, by code point. */
  predicate AllowedCode(code: int) {
    48 <= code <= 57 || 65 <= code <= 90 || 97 <= code <= 122 || code in {45, 46, 58, 95}
  }

  lemma IdentifierIsExact(s: string)
    ensures IsIdentifier(s) <==> 1 <= |s| <= 128 && forall i :: 0 <= i < |s| ==> AllowedCode(s[i] as int)
  {
    forall c: char ensures IdentifierChar(c) <==> AllowedCode(c as int) {
      assert c == (c as int) as char;
    }
    if IsIdentifier(s) {
      forall i | 0 <= i < |s| ensures AllowedCode(s[i] as int) { assert s[i] in s && IdentifierChar(s[i]); }
    }
    if forall i :: 0 <= i < |s| ==> AllowedCode(s[i] as int) {
      forall c | c in s ensures IdentifierChar(c) {
        var i :| 0 <= i < |s| && s[i] == c;
        assert AllowedCode(s[i] as int);
      }
    }
  }

  // ---- why a payload is refused ----

  /** What the contract asks of a payload, in the order in which it is asked. */
  datatype Demand =
    | NoCardData | NothingMissing | NothingExtra | KnownSchema
    | EventIdForm | TransactionIdForm | SourceIdForm | ProcessorIdForm | MerchantIdForm
    | SourceKnown | SourceContracted | PositiveVersion | KnownType | PositiveAmount | KnownCurrency
    | EventTimeText | EventTimeZone | ReceivedAtText | ReceivedAtZone | EmailForm | LongTokenKey

  function Rank(d: Demand): nat {
    match d
    case NoCardData => 0
    case NothingMissing => 1
    case NothingExtra => 2
    case KnownSchema => 3
    case EventIdForm => 4
    case TransactionIdForm => 5
    case SourceIdForm => 6
    case ProcessorIdForm => 7
    case MerchantIdForm => 8
    case SourceKnown => 9
    case SourceContracted => 10
    case PositiveVersion => 11
    case KnownType => 12
    case PositiveAmount => 13
    case KnownCurrency => 14
    case EventTimeText => 15
    case EventTimeZone => 16
    case ReceivedAtText => 17
    case ReceivedAtZone => 18
    case EmailForm => 19
    case LongTokenKey => 20
  }

  function TextOf(raw: Raw, field: string): Option<string> {
    if field in raw && raw[field].Text? then Some(raw[field].s) else None
  }

  predicate Identifies(raw: Raw, field: string) {
    TextOf(raw, field).Some? && IsIdentifier(TextOf(raw, field).value)
  }

  predicate Positive(raw: Raw, field: string) {
    field in raw && raw[field].Number? && raw[field].n > 0
  }

  predicate Readable(gate: Gate, raw: Raw, field: string) {
    TextOf(raw, field).Some? && gate.parseTimestamp(TextOf(raw, field).value) != Malformed
  }

  predicate Zoned(gate: Gate, raw: Raw, field: string) {
    TextOf(raw, field).Some? && gate.parseTimestamp(TextOf(raw, field).value).Aware?
  }

  predicate HasEmail(raw: Raw) {
    "customer_email" in raw && raw["customer_email"] != Null
  }

  ghost predicate Meets(gate: Gate, raw: Raw, d: Demand) {
    match d
    case NoCardData => Prohibited(gate, Object(raw)) == {}
    case NothingMissing => REQUIRED_FIELDS <= raw.Keys
    case NothingExtra => raw.Keys <= ALLOWED_FIELDS
    case KnownSchema => TextOf(raw, "schema_version") == Some("1.0")
    case EventIdForm => Identifies(raw, "event_id")
    case TransactionIdForm => Identifies(raw, "transaction_id")
    case SourceIdForm => Identifies(raw, "source_id")
    case ProcessorIdForm => Identifies(raw, "processor_id")
    case MerchantIdForm => Identifies(raw, "merchant_id")
    case SourceKnown => TextOf(raw, "source_id").Some? && TextOf(raw, "source_id").value in gate.registry
    case SourceContracted =>
      && TextOf(raw, "source_id").Some? && TextOf(raw, "source_id").value in gate.registry
      && gate.registry[TextOf(raw, "source_id").value].contract == "payment_event"
    case PositiveVersion => Positive(raw, "transaction_version")
    case KnownType =>
      TextOf(raw, "event_type") in {Some("authorization"), Some("capture"), Some("refund"), Some("chargeback")}
    case PositiveAmount => Positive(raw, "amount_minor")
    case KnownCurrency => TextOf(raw, "currency") in {Some("INR"), Some("USD"), Some("EUR"), Some("GBP")}
    case EventTimeText => Readable(gate, raw, "event_time")
    case EventTimeZone => Zoned(gate, raw, "event_time")
    case ReceivedAtText => Readable(gate, raw, "received_at")
    case ReceivedAtZone => Zoned(gate, raw, "received_at")
    case EmailForm => HasEmail(raw) ==> TextOf(raw, "customer_email").Some? && '@' in TextOf(raw, "customer_email").value
    case LongTokenKey => HasEmail(raw) ==> gate.tokenKeyLength >= 32
  }

  ghost function Complaint(gate: Gate, raw: Raw, d: Demand): Reason {
    match d
    case NoCardData => ProhibitedFields(Prohibited(gate, Object(raw)))
    case NothingMissing => MissingFields(REQUIRED_FIELDS - raw.Keys)
    case NothingExtra => UnexpectedFields(raw.Keys - ALLOWED_FIELDS)
    case KnownSchema => UnsupportedSchemaVersion
    case EventIdForm => InvalidField("event_id")
    case TransactionIdForm => InvalidField("transaction_id")
    case SourceIdForm => InvalidField("source_id")
    case ProcessorIdForm => InvalidField("processor_id")
    case MerchantIdForm => InvalidField("merchant_id")
    case SourceKnown => UnknownSource
    case SourceContracted => SourceContractMismatch
    case PositiveVersion => InvalidField("transaction_version")
    case KnownType => UnsupportedEventType
    case PositiveAmount => InvalidField("amount_minor")
    case KnownCurrency => UnsupportedCurrency
    case EventTimeText => InvalidField("event_time")
    case EventTimeZone => TimezoneRequired("event_time")
    case ReceivedAtText => InvalidField("received_at")
    case ReceivedAtZone => TimezoneRequired("received_at")
    case EmailForm => InvalidField("customer_email")
    case LongTokenKey => TokenKeyTooShort
  }

  /** The demand is not met and every earlier one is. */
  ghost predicate FirstUnmet(gate: Gate, raw: Raw, d: Demand) {
    !Meets(gate, raw, d) && forall earlier: Demand :: Rank(earlier) < Rank(d) ==> Meets(gate, raw, earlier)
  }

  /** The demands up to the known schema: the shape of the payload. */
  ghost predicate Shaped(gate: Gate, raw: Raw) {
    Meets(gate, raw, NoCardData) && Meets(gate, raw, NothingMissing) && Meets(gate, raw, NothingExtra)
    && Meets(gate, raw, KnownSchema)
  }

  ghost predicate Identified(gate: Gate, raw: Raw) {
    Meets(gate, raw, EventIdForm) && Meets(gate, raw, TransactionIdForm) && Meets(gate, raw, SourceIdForm)
    && Meets(gate, raw, ProcessorIdForm) && Meets(gate, raw, MerchantIdForm)
  }

  ghost predicate Valued(gate: Gate, raw: Raw) {
    Meets(gate, raw, SourceKnown) && Meets(gate, raw, SourceContracted) && Meets(gate, raw, PositiveVersion)
    && Meets(gate, raw, KnownType) && Meets(gate, raw, PositiveAmount) && Meets(gate, raw, KnownCurrency)
  }

  ghost predicate Timed(gate: Gate, raw: Raw) {
    Meets(gate, raw, EventTimeText) && Meets(gate, raw, EventTimeZone) && Meets(gate, raw, ReceivedAtText)
    && Meets(gate, raw, ReceivedAtZone)
  }

  lemma EarlierStages(gate: Gate, raw: Raw, d: Demand)
    requires FirstUnmet(gate, raw, d)
    ensures Rank(d) > 3 ==> Shaped(gate, raw)
    ensures Rank(d) > 8 ==> Identified(gate, raw)
    ensures Rank(d) > 14 ==> Valued(gate, raw)
    ensures Rank(d) > 18 ==> Timed(gate, raw)
  {
    hide Meets;
  }

  lemma ShapeRefusal(gate: Gate, raw: Raw, d: Demand)
    requires FirstUnmet(gate, raw, d) && Rank(d) <= 3
    ensures ValidateEvent(gate, raw) == Err(Complaint(gate, raw, d))
  {
    hide Prohibited;
    assert Rank(d) > 0 ==> Meets(gate, raw, NoCardData);
    assert Rank(d) > 1 ==> Meets(gate, raw, NothingMissing);
    assert Rank(d) > 2 ==> Meets(gate, raw, NothingExtra);
    assert REQUIRED_FIELDS - raw.Keys == {} <==> REQUIRED_FIELDS <= raw.Keys;
    assert raw.Keys - ALLOWED_FIELDS == {} <==> raw.Keys <= ALLOWED_FIELDS;
  }

  lemma IdentifierRefusal(gate: Gate, raw: Raw, d: Demand)
    requires FirstUnmet(gate, raw, d) && 4 <= Rank(d) <= 8
    ensures ValidateEvent(gate, raw) == Err(Complaint(gate, raw, d))
  {
    hide Prohibited, IsIdentifier, ValidateShape;
    EarlierStages(gate, raw, d);
    ShapeIsExact(gate, raw);
    assert Rank(d) > 4 ==> Meets(gate, raw, EventIdForm);
    assert Rank(d) > 5 ==> Meets(gate, raw, TransactionIdForm);
    assert Rank(d) > 6 ==> Meets(gate, raw, SourceIdForm);
    assert Rank(d) > 7 ==> Meets(gate, raw, ProcessorIdForm);
  }

  lemma ValueRefusal(gate: Gate, raw: Raw, d: Demand)
    requires FirstUnmet(gate, raw, d) && 9 <= Rank(d) <= 14
    ensures ValidateEvent(gate, raw) == Err(Complaint(gate, raw, d))
  {
    hide Prohibited, IsIdentifier, ValidateShape, ValidateIdentifier, EventTypeOf, Identifies, Shaped, Identified;
    EarlierStages(gate, raw, d);
    ShapePass(gate, raw);
    IdentifiersPass(gate, raw);
    TypeDemand(raw);
    assert Rank(d) > 9 ==> Meets(gate, raw, SourceKnown);
    assert Rank(d) > 10 ==> Meets(gate, raw, SourceContracted);
    assert Rank(d) > 11 ==> Meets(gate, raw, PositiveVersion);
    assert Rank(d) > 12 ==> Meets(gate, raw, KnownType);
    assert Rank(d) > 13 ==> Meets(gate, raw, PositiveAmount);
    CurrencyNames(raw);
  }

  lemma CurrencyNames(raw: Raw)
    ensures TextOf(raw, "currency") in {Some("INR"), Some("USD"), Some("EUR"), Some("GBP")}
       <==> "currency" in raw && raw["currency"].Text? && raw["currency"].s in CURRENCIES
  {
  }

  /** What the first three stages leave to the last one. */
  ghost predicate Passed(gate: Gate, raw: Raw) {
    && REQUIRED_FIELDS <= raw.Keys && ValidateShape(gate, raw) == Ok(raw)
    && IdentifiersPassed(raw)
    && ValuesPassed(gate, raw)
  }

  ghost predicate IdentifiersPassed(raw: Raw)
    requires REQUIRED_FIELDS <= raw.Keys
  {
    && ValidateIdentifier(raw["event_id"], "event_id").Ok?
    && ValidateIdentifier(raw["transaction_id"], "transaction_id").Ok?
    && ValidateIdentifier(raw["source_id"], "source_id").Ok?
    && ValidateIdentifier(raw["processor_id"], "processor_id").Ok?
    && ValidateIdentifier(raw["merchant_id"], "merchant_id").Ok?
  }

  ghost predicate ValuesPassed(gate: Gate, raw: Raw)
    requires REQUIRED_FIELDS <= raw.Keys && IdentifiersPassed(raw)
  {
    var sourceId := ValidateIdentifier(raw["source_id"], "source_id").value;
    && sourceId in gate.registry && gate.registry[sourceId].contract == "payment_event"
    && raw["transaction_version"].Number? && raw["transaction_version"].n >= 1
    && EventTypeOf(raw["event_type"]).Some?
    && raw["amount_minor"].Number? && raw["amount_minor"].n > 0
    && raw["currency"].Text? && raw["currency"].s in CURRENCIES
  }

  lemma IdentifierDemand(raw: Raw, field: string)
    requires field in raw
    ensures ValidateIdentifier(raw[field], field).Ok? <==> Identifies(raw, field)
    ensures ValidateIdentifier(raw[field], field).Ok? ==> TextOf(raw, field) == Some(ValidateIdentifier(raw[field], field).value)
  {
    hide IsIdentifier;
  }

  lemma TypeDemand(raw: Raw)
    requires "event_type" in raw
    ensures EventTypeOf(raw["event_type"]).Some?
       <==> TextOf(raw, "event_type") in {Some("authorization"), Some("capture"), Some("refund"), Some("chargeback")}
  {
  }

  lemma ShapePass(gate: Gate, raw: Raw)
    requires Shaped(gate, raw)
    ensures REQUIRED_FIELDS <= raw.Keys && ValidateShape(gate, raw) == Ok(raw)
  {
    hide Prohibited, ValidateShape;
    ShapeIsExact(gate, raw);
  }

  lemma IdentifiersPass(gate: Gate, raw: Raw)
    requires REQUIRED_FIELDS <= raw.Keys && Identified(gate, raw)
    ensures IdentifiersPassed(raw)
    ensures TextOf(raw, "source_id") == Some(ValidateIdentifier(raw["source_id"], "source_id").value)
  {
    hide Prohibited, ValidateIdentifier, Identifies;
    IdentifierDemand(raw, "event_id");
    IdentifierDemand(raw, "transaction_id");
    IdentifierDemand(raw, "source_id");
    IdentifierDemand(raw, "processor_id");
    IdentifierDemand(raw, "merchant_id");
  }

  lemma ValuesPass(gate: Gate, raw: Raw)
    requires REQUIRED_FIELDS <= raw.Keys && IdentifiersPassed(raw) && Valued(gate, raw)
    requires TextOf(raw, "source_id") == Some(ValidateIdentifier(raw["source_id"], "source_id").value)
    ensures ValuesPassed(gate, raw)
  {
    hide ValidateIdentifier, EventTypeOf;
    TypeDemand(raw);
    CurrencyNames(raw);
  }

  lemma StagesPass(gate: Gate, raw: Raw)
    requires Shaped(gate, raw) && Identified(gate, raw) && Valued(gate, raw)
    ensures Passed(gate, raw)
  {
    hide Meets, ValidateIdentifier, IdentifiersPassed, ValuesPassed, Shaped, Identified, Valued;
    ShapePass(gate, raw);
    IdentifiersPass(gate, raw);
    ValuesPass(gate, raw);
  }

  /** The last stage: both times, the e-mail and the token key, in this order. */
  lemma LastStage(gate: Gate, raw: Raw)
    requires Passed(gate, raw)
    ensures var eventTime := ParseTimestamp(gate, raw["event_time"], "event_time");
      var receivedAt := ParseTimestamp(gate, raw["received_at"], "received_at");
      var email := ValidateEmail(raw);
      && (eventTime.Err? ==> ValidateEvent(gate, raw) == Err(eventTime.error))
      && (eventTime.Ok? && receivedAt.Err? ==> ValidateEvent(gate, raw) == Err(receivedAt.error))
      && (eventTime.Ok? && receivedAt.Ok? && email.Err? ==> ValidateEvent(gate, raw) == Err(email.error))
      && (eventTime.Ok? && receivedAt.Ok? && email.Ok? ==>
            var token := TokenizeCustomer(gate, email.value);
            && (token.Err? ==> ValidateEvent(gate, raw) == Err(token.error))
            && (token.Ok? ==> ValidateEvent(gate, raw).Ok?))
  {
    hide ValidateShape, ValidateIdentifier, ParseTimestamp, ValidateEmail, TokenizeCustomer, EventTypeOf;
  }

  lemma TimeDemand(gate: Gate, raw: Raw, field: string)
    requires field in raw
    ensures var time := ParseTimestamp(gate, raw[field], field);
      && (time.Ok? <==> Readable(gate, raw, field) && Zoned(gate, raw, field))
      && (time.Err? ==> time.error == if Readable(gate, raw, field) then TimezoneRequired(field) else InvalidField(field))
  {
  }

  lemma EmailDemand(gate: Gate, raw: Raw)
    ensures var email := ValidateEmail(raw);
      && (email.Ok? <==> Meets(gate, raw, EmailForm))
      && (email.Err? ==> email.error == InvalidField("customer_email"))
      && (email.Ok? ==>
            var token := TokenizeCustomer(gate, email.value);
            && (token.Ok? <==> Meets(gate, raw, LongTokenKey))
            && (token.Err? ==> token.error == TokenKeyTooShort))
  {
  }

  /** How the validation of a payload that passed the first stages ends. */
  lemma LastStageDemands(gate: Gate, raw: Raw)
    requires Passed(gate, raw)
    ensures var r := ValidateEvent(gate, raw);
      if !Meets(gate, raw, EventTimeText) then r == Err(InvalidField("event_time"))
      else if !Meets(gate, raw, EventTimeZone) then r == Err(TimezoneRequired("event_time"))
      else if !Meets(gate, raw, ReceivedAtText) then r == Err(InvalidField("received_at"))
      else if !Meets(gate, raw, ReceivedAtZone) then r == Err(TimezoneRequired("received_at"))
      else if !Meets(gate, raw, EmailForm) then r == Err(InvalidField("customer_email"))
      else if !Meets(gate, raw, LongTokenKey) then r == Err(TokenKeyTooShort)
      else r.Ok?
  {
    hide ValidateEvent, ValidateShape, ValidateIdentifier, EventTypeOf, ParseTimestamp, ValidateEmail, TokenizeCustomer;
    hide Readable, Zoned, HasEmail;
    LastStage(gate, raw);
    TimeDemand(gate, raw, "event_time");
    TimeDemand(gate, raw, "received_at");
    EmailDemand(gate, raw);
  }

  lemma TimeRefusal(gate: Gate, raw: Raw, d: Demand)
    requires FirstUnmet(gate, raw, d) && 15 <= Rank(d)
    ensures ValidateEvent(gate, raw) == Err(Complaint(gate, raw, d))
  {
    hide ValidateEvent, Meets, Passed;
    EarlierStages(gate, raw, d);
    StagesPass(gate, raw);
    LastStageDemands(gate, raw);
    assert Rank(d) > 15 ==> Meets(gate, raw, EventTimeText);
    assert Rank(d) > 16 ==> Meets(gate, raw, EventTimeZone);
    assert Rank(d) > 17 ==> Meets(gate, raw, ReceivedAtText);
    assert Rank(d) > 18 ==> Meets(gate, raw, ReceivedAtZone);
    assert Rank(d) > 19 ==> Meets(gate, raw, EmailForm);
  }

  lemma AllMetAccepts(gate: Gate, raw: Raw)
    requires forall d: Demand :: Meets(gate, raw, d)
    ensures ValidateEvent(gate, raw).Ok?
  {
    hide ValidateEvent, Meets, Passed;
    assert Shaped(gate, raw) && Identified(gate, raw) && Valued(gate, raw) && Timed(gate, raw);
    assert Meets(gate, raw, EmailForm) && Meets(gate, raw, LongTokenKey);
    StagesPass(gate, raw);
    LastStageDemands(gate, raw);
  }

  lemma FirstUnmetRefuses(gate: Gate, raw: Raw, d: Demand)
    requires FirstUnmet(gate, raw, d)
    ensures ValidateEvent(gate, raw) == Err(Complaint(gate, raw, d))
  {
    hide ValidateEvent, Complaint, FirstUnmet;
    if Rank(d) <= 3 { ShapeRefusal(gate, raw, d); }
    else if Rank(d) <= 8 { IdentifierRefusal(gate, raw, d); }
    else if Rank(d) <= 14 { ValueRefusal(gate, raw, d); }
    else { TimeRefusal(gate, raw, d); }
  }

  lemma {:induction false} LeastUnmet(gate: Gate, raw: Raw, d: Demand) returns (first: Demand)
    requires !Meets(gate, raw, d)
    ensures FirstUnmet(gate, raw, first)
    decreases Rank(d)
  {
    hide Meets;
    first := d;
    if !FirstUnmet(gate, raw, d) {
      var earlier: Demand :| Rank(earlier) < Rank(d) && !Meets(gate, raw, earlier);
      first := LeastUnmet(gate, raw, earlier);
    }
  }

  /** A payload is refused for a reason exactly if that is the complaint about its first unmet demand. */
  lemma RefusalIsExact(gate: Gate, raw: Raw, reason: Reason)
    ensures ValidateEvent(gate, raw) == Err(reason)
       <==> exists d: Demand :: FirstUnmet(gate, raw, d) && reason == Complaint(gate, raw, d)
    ensures ValidateEvent(gate, raw).Ok? <==> forall d: Demand :: Meets(gate, raw, d)
  {
    hide ValidateEvent, Meets, Complaint, FirstUnmet;
    if forall d: Demand :: Meets(gate, raw, d) {
      AllMetAccepts(gate, raw);
      forall d: Demand ensures !FirstUnmet(gate, raw, d) { UnmetIsUnmet(gate, raw, d); }
    } else {
      var d: Demand :| !Meets(gate, raw, d);
      var first := LeastUnmet(gate, raw, d);
      FirstUnmetRefuses(gate, raw, first);
      forall other: Demand | FirstUnmet(gate, raw, other)
        ensures ValidateEvent(gate, raw) == Err(Complaint(gate, raw, other))
      {
        FirstUnmetRefuses(gate, raw, other);
      }
    }
  }

  lemma UnmetIsUnmet(gate: Gate, raw: Raw, d: Demand)
    requires Meets(gate, raw, d)
    ensures !FirstUnmet(gate, raw, d)
  {
  }
}
