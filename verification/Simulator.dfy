/**
 The synthetic generator: transactions 1, 2, 3, … with their payment events, until enough events exist,
 then a shuffle, exact duplicates, and four records that the identity gate must refuse.

 The calendar is a parameter (`Clock`): seconds after 2026-01-01 UTC, their text and its reading.  So is
 the shuffle.
 */
module Simulator {
  import opened Wrappers
  import opened Sums
  import opened Numerals
  import opened Contracts
  import opened Ledger

  /** The arguments from which one event is built. */
  datatype Draft = Draft(number: nat, version: nat, eventType: EventType, amountMinor: int, sourceId: string)

  datatype Clock = Clock(isoformat: nat -> string, fromisoformat: string -> nat)

  datatype Injected = Injected(
    exactDuplicates: nat,
    identityConflicts: nat,
    invalidAmount: nat,
    unsupportedSchema: nat,
    prohibitedFields: nat
  )

  datatype Report = Report(rawRecords: nat, validUniqueEvents: nat, transactions: nat, injected: Injected)

  datatype GeneratorError = TooFewRecords | NoLifecycleSources | DateOverflow

  const MINIMUM_RECORDS := 100

  /** The last representable second, 9999-12-31T23:59:59. */
  const LAST_SECOND: nat := 251635075199

  const CARD_NUMBER := "card_number"

  // ---- one event ----

  function TransactionId(number: nat): string {
    "txn-" + Padded(number, 10)
  }

  function GeneratedId(number: nat, version: nat): string {
    TransactionId(number) + [':'] + ("v" + Decimal(version))
  }

  function ProcessorId(number: nat): string {
    "processor-" + Padded(number % 3 + 1, 2)
  }

  function MerchantId(number: nat): string {
    "merchant-" + Padded(number % 250, 3)
  }

  function EmailOf(number: nat): string {
    "customer" + Decimal(number % 10000) + "@example.test"
  }

  function EventSecond(d: Draft): nat {
    d.number * 10 + d.version * 60
  }

  function ReceivedSecond(d: Draft): nat {
    EventSecond(d) + (d.number * 17 + d.version * 11) % 240
  }

  /** The raw event of a draft, received at a given second. */
  function Payload(clock: Clock, d: Draft, received: nat): Raw {
    map[
      "schema_version" := Text("1.0"),
      "event_id" := Text(GeneratedId(d.number, d.version)),
      "transaction_id" := Text(TransactionId(d.number)),
      "transaction_version" := Number(d.version),
      "source_id" := Text(d.sourceId),
      "processor_id" := Text(ProcessorId(d.number)),
      "merchant_id" := Text(MerchantId(d.number)),
      "event_type" := Text(NameOf(d.eventType)),
      "amount_minor" := Number(d.amountMinor),
      "currency" := Text(CURRENCIES[d.number % |CURRENCIES|]),
      "event_time" := Text(clock.isoformat(EventSecond(d))),
      "received_at" := Text(clock.isoformat(received)),
      "customer_email" := Text(EmailOf(d.number))
    ]
  }

  function RawOf(clock: Clock, d: Draft): Raw {
    Payload(clock, d, ReceivedSecond(d))
  }

  function Payloads(clock: Clock, drafts: seq<Draft>): seq<Raw> {
    seq(|drafts|, i requires 0 <= i < |drafts| => RawOf(clock, drafts[i]))
  }

  // ---- the valid events ----

  predicate IsLifecycle(source: Source) {
    source.mode == "stream" || source.mode == "cdc"
  }

  function AtLeastOne(n: int): int {
    if n < 1 then 1 else n
  }

  function AmountOf(number: nat): int {
    10000 + (number * 7919) % 490000
  }

  /** Authorization and capture, then perhaps one partial reversal. */
  function TransactionDrafts(number: nat, sourceId: string): (drafts: seq<Draft>)
    ensures 2 <= |drafts| <= 3
  {
    var amount := AmountOf(number);
    [Draft(number, 1, Authorization, amount, sourceId), Draft(number, 2, Capture, amount, sourceId)]
    + if number % 5 == 0 then [Draft(number, 3, Refund, AtLeastOne(amount / 4), sourceId)]
      else if number % 7 == 0 then [Draft(number, 3, Chargeback, AtLeastOne(amount / 5), sourceId)]
      else []
  }

  function SourceFor(sources: seq<Source>, number: nat): string
    requires sources != [] && number >= 1
  {
    sources[(number - 1) % |sources|].sourceId
  }

  /** The drafts of transactions 1 to `count`. */
  function Drafts(sources: seq<Source>, count: nat): (drafts: seq<Draft>)
    requires sources != []
    ensures |drafts| >= 2 * count
  {
    if count == 0 then [] else Drafts(sources, count - 1) + TransactionDrafts(count, SourceFor(sources, count))
  }

  /** The first count, from `count` on, whose drafts are enough. */
  function TransactionsFrom(sources: seq<Source>, minimum: nat, count: nat): (n: nat)
    requires sources != []
    ensures n >= count && |Drafts(sources, n)| >= minimum
    ensures n > count ==> |Drafts(sources, n - 1)| < minimum
    decreases if |Drafts(sources, count)| < minimum then minimum - |Drafts(sources, count)| else 0
  {
    if |Drafts(sources, count)| >= minimum then count else TransactionsFrom(sources, minimum, count + 1)
  }

  function Transactions(sources: seq<Source>, minimum: nat): nat
    requires sources != []
  {
    TransactionsFrom(sources, minimum, 0)
  }

  /** No timestamp of the event passes the end of the calendar. */
  predicate Representable(d: Draft) {
    ReceivedSecond(d) <= LAST_SECOND
  }

  ghost predicate AllRepresentable(drafts: seq<Draft>) {
    forall d :: d in drafts ==> Representable(d)
  }

  // ---- the injected records ----

  /** Every other record of a small prefix is repeated. */
  function DuplicateLimit(size: nat): nat {
    var share := if size / 300 < 4 then 4 else size / 300;
    if size < share then size else share
  }

  function Duplicates(valid: seq<Raw>): seq<Raw> {
    seq((DuplicateLimit(|valid|) + 1) / 2, i requires 0 <= i < (DuplicateLimit(|valid|) + 1) / 2 => valid[2 * i])
  }

  predicate HasAmountAndTime(raw: Raw) {
    && "amount_minor" in raw && raw["amount_minor"].Number?
    && "received_at" in raw && raw["received_at"].Text?
  }

  /** One minor unit more, received five minutes later. */
  function ConflictOf(clock: Clock, raw: Raw): Raw
    requires HasAmountAndTime(raw)
  {
    var received := clock.fromisoformat(raw["received_at"].s) + 300;
    raw["amount_minor" := Number(raw["amount_minor"].n + 1)]["received_at" := Text(clock.isoformat(received))]
  }

  function Renamed(raw: Raw, id: string): Raw {
    raw["event_id" := Text(id)]["transaction_id" := Text(id)]
  }

  function InvalidAmountOf(raw: Raw): Raw {
    Renamed(raw, "fixture:invalid-amount")["amount_minor" := Number(-100)]
  }

  function UnsupportedOf(raw: Raw): Raw {
    Renamed(raw, "fixture:unsupported-schema")["schema_version" := Text("9.9")]
  }

  function ProhibitedOf(raw: Raw): Raw {
    Renamed(raw, "fixture:prohibited-pan")[CARD_NUMBER := Text("4111111111111111")]
  }

  function Fixtures(clock: Clock, valid: seq<Raw>): seq<Raw>
    requires |valid| >= 2 && HasAmountAndTime(valid[0])
  {
    [ConflictOf(clock, valid[0]), InvalidAmountOf(valid[1]), UnsupportedOf(valid[1]), ProhibitedOf(valid[1])]
  }

  /** What is written out: the shuffled valid events, the duplicates and the four refused records. */
  function Arrivals(clock: Clock, valid: seq<Raw>, shuffled: seq<Raw>): seq<Raw>
    requires |valid| >= 2 && HasAmountAndTime(valid[0])
  {
    shuffled + Duplicates(valid) + Fixtures(clock, valid)
  }

  lemma PayloadsFit(clock: Clock, sources: seq<Source>, count: nat)
    requires sources != [] && count >= 1
    ensures var valid := Payloads(clock, Drafts(sources, count)); |valid| >= 2 && HasAmountAndTime(valid[0])
  {
  }

  /** The arrivals and the report of a successful generation. */
  function Generated(clock: Clock, sources: seq<Source>, minimum: nat, shuffle: seq<Raw> -> seq<Raw>): (seq<Raw>, Report)
    requires sources != [] && minimum > 0
  {
    var count := Transactions(sources, minimum);
    var valid := Payloads(clock, Drafts(sources, count));
    PayloadsFit(clock, sources, count);
    var arrivals := Arrivals(clock, valid, shuffle(valid));
    (arrivals, Report(|arrivals|, |valid|, count, Injected(|Duplicates(valid)|, 1, 1, 1, 1)))
  }

  // ---- the generator ----

  lemma {:induction false} DraftsGrow(sources: seq<Source>, few: nat, many: nat)
    requires sources != [] && few <= many
    ensures Drafts(sources, few) <= Drafts(sources, many)
  {
    if few < many {
      DraftsGrow(sources, few, many - 1);
    }
  }

  lemma TransactionsReached(sources: seq<Source>, minimum: nat, count: nat)
    requires sources != []
    requires |Drafts(sources, count)| >= minimum
    requires count > 0 ==> |Drafts(sources, count - 1)| < minimum
    ensures Transactions(sources, minimum) == count
  {
    hide TransactionDrafts, SourceFor;
    var n := Transactions(sources, minimum);
    if n < count { DraftsGrow(sources, n, count - 1); }
    if count < n { DraftsGrow(sources, count, n - 1); }
  }

  /** Generates whole transactions until there are enough events. */
  method GenerateValid(sources: seq<Source>, minimum: nat, clock: Clock)
    returns (r: Result<(seq<Raw>, nat), GeneratorError>)
    requires sources != [] && minimum > 0
    ensures var count := Transactions(sources, minimum);
      && (r.Ok? <==> AllRepresentable(Drafts(sources, count)))
      && (r.Ok? ==> r.value == (Payloads(clock, Drafts(sources, count)), count))
      && (r.Err? ==> r.error == DateOverflow)
  {
    hide TransactionDrafts, Representable, RawOf, Transactions, SourceFor;
    var valid: seq<Raw> := [];
    var number := 1;
    while |valid| < minimum
      invariant number >= 1
      invariant valid == Payloads(clock, Drafts(sources, number - 1))
      invariant AllRepresentable(Drafts(sources, number - 1))
      invariant number > 1 ==> |Drafts(sources, number - 2)| < minimum
      decreases minimum - |valid|
    {
      var drafts := TransactionDrafts(number, SourceFor(sources, number));
      assert Drafts(sources, number) == Drafts(sources, number - 1) + drafts;
      if exists d | d in drafts :: !Representable(d) {
        TooLate(sources, minimum, number);
        return Err(DateOverflow);
      }
      valid := valid + Payloads(clock, drafts);
      number := number + 1;
    }
    TransactionsReached(sources, minimum, number - 1);
    r := Ok((valid, number - 1));
  }

  /** Appends the duplicates and the four refused records to the shuffled events. */
  method Inject(clock: Clock, valid: seq<Raw>, shuffled: seq<Raw>) returns (arrivals: seq<Raw>, injected: Injected)
    requires |valid| >= 2 && HasAmountAndTime(valid[0])
    ensures arrivals == Arrivals(clock, valid, shuffled)
    ensures injected == Injected(|Duplicates(valid)|, 1, 1, 1, 1)
  {
    hide Renamed, InvalidAmountOf, UnsupportedOf, ProhibitedOf, ConflictOf;
    arrivals := shuffled;
    var duplicates, index := 0, 0;
    while index < DuplicateLimit(|valid|)
      invariant index == 2 * duplicates && duplicates <= |Duplicates(valid)|
      invariant arrivals == shuffled + Duplicates(valid)[..duplicates]
    {
      assert Duplicates(valid)[duplicates] == valid[index];
      arrivals := arrivals + [valid[index]];
      duplicates := duplicates + 1;
      index := index + 2;
    }
    assert Duplicates(valid)[..duplicates] == Duplicates(valid);
    arrivals := arrivals + [ConflictOf(clock, valid[0])];
    arrivals := arrivals + [InvalidAmountOf(valid[1])];
    arrivals := arrivals + [UnsupportedOf(valid[1])];
    arrivals := arrivals + [ProhibitedOf(valid[1])];
    injected := Injected(duplicates, 1, 1, 1, 1);
  }

  method GeneratePaymentEvents(
    registry: seq<Source>, minimum: int, clock: Clock, shuffle: seq<Raw> -> seq<Raw>)
    returns (r: Result<(seq<Raw>, Report), GeneratorError>)
    ensures var sources := Filter(registry, IsLifecycle);
      r == if minimum < MINIMUM_RECORDS then Err(TooFewRecords)
           else if sources == [] then Err(NoLifecycleSources)
           else if !AllRepresentable(Drafts(sources, Transactions(sources, minimum))) then Err(DateOverflow)
           else Ok(Generated(clock, sources, minimum, shuffle))
    ensures r == Err(TooFewRecords) <==> minimum < 100
    ensures r == Err(NoLifecycleSources)
       <==> minimum >= 100 && forall source :: source in registry ==> source.mode != "stream" && source.mode != "cdc"
  {
    hide Arrivals, TransactionDrafts, Representable, RawOf, Duplicates;
    if minimum < MINIMUM_RECORDS { return Err(TooFewRecords); }
    var sources := Filter(registry, IsLifecycle);
    if sources == [] { return Err(NoLifecycleSources); }
    assert IsLifecycle(sources[0]) && sources[0] in sources;
    var generated := GenerateValid(sources, minimum, clock);
    if generated.Err? { return Err(generated.error); }
    var (valid, count) := generated.value;
    PayloadsFit(clock, sources, count);
    var arrivals, injected := Inject(clock, valid, shuffle(valid));
    r := Ok((arrivals, Report(|arrivals|, |valid|, count, injected)));
  }

  lemma TooLate(sources: seq<Source>, minimum: nat, number: nat)
    requires sources != [] && number >= 1 && |Drafts(sources, number - 1)| < minimum
    requires !AllRepresentable(TransactionDrafts(number, SourceFor(sources, number)))
    ensures !AllRepresentable(Drafts(sources, Transactions(sources, minimum)))
  {
    hide TransactionDrafts, SourceFor, Representable;
    var count := Transactions(sources, minimum);
    if count < number {
      DraftsGrow(sources, count, number - 1);
    }
    DraftsGrow(sources, number, count);
    var d :| d in TransactionDrafts(number, SourceFor(sources, number)) && !Representable(d);
    assert d in Drafts(sources, number);
  }
}
