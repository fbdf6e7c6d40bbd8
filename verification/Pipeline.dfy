/**
 The incremental pipeline: tables that are only ever merged into, one business date at a time, and the
 overlay through which finance reads them.

 A step is one atomic merge.  Steps of different dates may interleave, repeat or never happen, so every
 crash, retry and partial run is a step sequence.  The jobs select transactions by the converted date of
 their events, which need not be the date under which an event was filed and ingested, so an ingest may
 deliver events of any dates.  `unmerged` is bookkeeping, not a table: it records which transactions gained
 events that a merge has not yet read.
 */
module Pipeline {
  import opened Wrappers
  import opened Sums
  import opened Contracts
  import opened Ledger
  import opened Lifecycle
  import opened History
  import opened Reconstruction

  /** A posting line with the time of its event. */
  datatype TimedLine = TimedLine(line: PostingLine, eventTime: string)

  datatype Merge = StateMerge | ExceptionMerge | PostedMerge | LedgerMerge

  datatype Lake = Lake(
    accepted: Accepted,
    states: map<string, PaymentState>,
    exceptions: map<string, WindowException>,
    posted: map<string, PaymentEvent>,
    ledger: map<string, TimedLine>,
    unmerged: set<(string, Merge)>
  )

  const EMPTY_LAKE := Lake(map[], map[], map[], map[], map[], {})

  /** One merge; `frame` lists the rows in whatever order the engine delivers them. */
  datatype Step =
    | Ingest(incoming: Accepted)
    | Apply(merge: Merge, date: string, frame: seq<PaymentEvent>)

  // ---- posting lines ----

  predicate IsMonetary(e: PaymentEvent) { !e.eventType.Authorization? }

  function DebitLine(e: PaymentEvent): TimedLine {
    var account := match e.eventType
      case Capture => PROCESSOR_RECEIVABLE
      case Refund => MERCHANT_PAYABLE
      case _ => CHARGEBACK_LOSS;
    TimedLine(
      PostingLine(EntryId(e.eventId, 1), e.eventId, e.transactionId, e.processorId, e.merchantId,
                  e.currency, account, e.amountMinor, 1), e.eventTime)
  }

  function CreditLine(e: PaymentEvent): TimedLine {
    var account := if e.eventType.Capture? then MERCHANT_PAYABLE else PROCESSOR_RECEIVABLE;
    TimedLine(
      PostingLine(EntryId(e.eventId, 2), e.eventId, e.transactionId, e.processorId, e.merchantId,
                  e.currency, account, -e.amountMinor, 1), e.eventTime)
  }

  function Debits(events: seq<PaymentEvent>): seq<TimedLine> {
    seq(|events|, i requires 0 <= i < |events| => DebitLine(events[i]))
  }

  function Credits(events: seq<PaymentEvent>): seq<TimedLine> {
    seq(|events|, i requires 0 <= i < |events| => CreditLine(events[i]))
  }

  /** All debits of the monetary events, then all credits. */
  function PostingLines(events: seq<PaymentEvent>): seq<TimedLine> {
    var monetary := Filter(events, IsMonetary);
    Debits(monetary) + Credits(monetary)
  }

  lemma PostingLinesAre(events: seq<PaymentEvent>)
    ensures forall l :: l in PostingLines(events)
                   <==> exists e :: e in events && IsMonetary(e) && (l == DebitLine(e) || l == CreditLine(e))
  {
    var monetary := Filter(events, IsMonetary);
    var debits, credits := Debits(monetary), Credits(monetary);
    forall i | 0 <= i < |monetary| ensures DebitLine(monetary[i]) in debits && CreditLine(monetary[i]) in credits {
      assert debits[i] == DebitLine(monetary[i]) && credits[i] == CreditLine(monetary[i]);
    }
    forall l | l in PostingLines(events)
      ensures exists e :: e in events && IsMonetary(e) && (l == DebitLine(e) || l == CreditLine(e))
    {
      if l in debits {
        var i :| 0 <= i < |monetary| && debits[i] == l;
        assert monetary[i] in events;
      } else {
        var i :| 0 <= i < |monetary| && credits[i] == l;
        assert monetary[i] in events;
      }
    }
    forall e | e in events && IsMonetary(e) ensures DebitLine(e) in debits && CreditLine(e) in credits {
      assert e in monetary;
      var i :| 0 <= i < |monetary| && monetary[i] == e;
    }
  }

  /** The pipeline's two lines of an event are the configured rules' lines. */
  lemma LinesAgree(e: PaymentEvent)
    ensures LinesOf(e, CONFIGURED_RULES) == if IsMonetary(e) then [DebitLine(e).line, CreditLine(e).line] else []
  {
  }

  // ---- reading ----

  function Touched(dateOf: PaymentEvent -> string, accepted: Accepted, date: string): set<string> {
    set id | id in accepted && dateOf(accepted[id]) == date :: accepted[id].transactionId
  }

  /** The whole history of every transaction touched on a date. */
  function Affected(dateOf: PaymentEvent -> string, accepted: Accepted, date: string): set<PaymentEvent> {
    set id | id in accepted && accepted[id].transactionId in Touched(dateOf, accepted, date) :: accepted[id]
  }

  function NotExcepted(exceptions: map<string, WindowException>): PaymentEvent -> bool {
    (e: PaymentEvent) => e.eventId !in exceptions
  }

  /** The left anti-join on event id, then the monetary filter. */
  function ToPost(exceptions: map<string, WindowException>, frame: seq<PaymentEvent>): seq<PaymentEvent> {
    Filter(Filter(frame, NotExcepted(exceptions)), IsMonetary)
  }

  function ByEventId(events: seq<PaymentEvent>): Accepted {
    if events == [] then map[]
    else ByEventId(events[..|events| - 1])[events[|events| - 1].eventId := events[|events| - 1]]
  }

  function ByEntryId(lines: seq<TimedLine>): map<string, TimedLine> {
    if lines == [] then map[]
    else ByEntryId(lines[..|lines| - 1])[lines[|lines| - 1].line.entryId := lines[|lines| - 1]]
  }

  // ---- steps ----

  /** What an accepted prefix may deliver. */
  ghost predicate Deliverable(incoming: Accepted) {
    Keyed(incoming) && forall id :: id in incoming ==> WellFormed(incoming[id])
  }

  /** The transactions for which a delivery brings an event that is not yet present. */
  function Gaining(accepted: Accepted, incoming: Accepted): set<string> {
    set id | id in incoming && id !in accepted :: incoming[id].transactionId
  }

  function AllMerges(transactions: set<string>): set<(string, Merge)> {
    set t, merge | t in transactions && merge in {StateMerge, ExceptionMerge, PostedMerge, LedgerMerge} :: (t, merge)
  }

  function OneMerge(transactions: set<string>, merge: Merge): set<(string, Merge)> {
    set t | t in transactions :: (t, merge)
  }

  ghost predicate Enabled(dateOf: PaymentEvent -> string, lake: Lake, step: Step) {
    match step
    case Ingest(incoming) => Deliverable(incoming)
    case Apply(_, date, frame) => Listing(frame, Affected(dateOf, lake.accepted, date)) && IdsUnique(frame)
  }

  /** Existing accepted events, postings and lines win; states and exceptions are replaced. */
  ghost function Next(dateOf: PaymentEvent -> string, lake: Lake, step: Step): Lake {
    if !Enabled(dateOf, lake, step) then lake
    else
      match step
      case Ingest(incoming) =>
        lake.(accepted := incoming + lake.accepted,
              unmerged := lake.unmerged + AllMerges(Gaining(lake.accepted, incoming)))
      case Apply(merge, date, frame) =>
        var settled := lake.(unmerged := lake.unmerged - OneMerge(Touched(dateOf, lake.accepted, date), merge));
        match merge
        case StateMerge => settled.(states := lake.states + Reconstruct(frame).current)
        case ExceptionMerge => settled.(exceptions := lake.exceptions + Reconstruct(frame).exceptions)
        case PostedMerge => settled.(posted := ByEventId(ToPost(lake.exceptions, frame)) + lake.posted)
        case LedgerMerge => settled.(ledger := ByEntryId(PostingLines(ToPost(lake.exceptions, frame))) + lake.ledger)
  }

  ghost function After(dateOf: PaymentEvent -> string, steps: seq<Step>): Lake {
    if steps == [] then EMPTY_LAKE
    else Next(dateOf, After(dateOf, steps[..|steps| - 1]), steps[|steps| - 1])
  }

  // ---- the overlay ----

  /** Some exception row exists for the transaction. */
  predicate Excepted(lake: Lake, transactionId: string) {
    exists id | id in lake.exceptions :: lake.exceptions[id].event.transactionId == transactionId
  }

  datatype CurrentPayment = CurrentPayment(state: PaymentState, netProcessorReceivable: int)

  /** dim_payment_current: state rows of transactions without exception rows. */
  function DimPaymentCurrent(lake: Lake): map<string, CurrentPayment> {
    map id | id in lake.states && !Excepted(lake, id) ::
      CurrentPayment(lake.states[id],
                     lake.states[id].capturedMinor - lake.states[id].refundedMinor - lake.states[id].chargebackMinor)
  }

  /** The ledger lines that fct_ledger_daily aggregates. */
  function VisibleLines(lake: Lake): set<TimedLine> {
    set k | k in lake.ledger && !Excepted(lake, lake.ledger[k].line.transactionId) :: lake.ledger[k]
  }

  datatype DailyKey = DailyKey(date: string, processorId: string, merchantId: string, currency: string)

  function DailyGroup(dateOf: string -> string, lake: Lake, key: DailyKey): set<TimedLine> {
    set l | l in VisibleLines(lake)
            && DailyKey(dateOf(l.eventTime), l.line.processorId, l.line.merchantId, l.line.currency) == key
  }

  function TimedSigned(l: TimedLine): int { l.line.signedMinor }

  function OnAccount(lines: set<TimedLine>, account: string): set<TimedLine> {
    set l | l in lines && l.line.account == account
  }

  /** fct_ledger_daily: entry count and signed sum of one date, party and account. */
  ghost function FctLedgerDaily(dateOf: string -> string, lake: Lake, key: DailyKey, account: string): (nat, int) {
    var lines := OnAccount(DailyGroup(dateOf, lake, key), account);
    (|lines|, Sum(lines, TimedSigned))
  }

  // ---- facts about frames and merges ----

  lemma PartitionLists(dateOf: PaymentEvent -> string, accepted: Accepted, date: string, frame: seq<PaymentEvent>, t: string)
    requires Listing(frame, Affected(dateOf, accepted, date))
    ensures Listing(Partition(frame, t),
                    if t in Touched(dateOf, accepted, date) then EventsOf(accepted, t) else {})
    ensures t in FrameTransactions(frame) <==> t in Touched(dateOf, accepted, date)
  {
    FilterDistinct(frame, InTransaction(t));
    var touched := Touched(dateOf, accepted, date);
    if t in touched {
      var id :| id in accepted && dateOf(accepted[id]) == date && accepted[id].transactionId == t;
      assert accepted[id] in frame;
    }
  }

  lemma {:induction false} FilterDistinct<T(!new)>(s: seq<T>, p: T -> bool)
    requires Distinct(s)
    ensures Distinct(Filter(s, p))
  {
    if s != [] {
      assert Distinct(s[1..]);
      FilterDistinct(s[1..], p);
      assert forall x :: x in s[1..] ==> x != s[0];
    }
  }

  lemma {:induction false} ByEventIdIs(events: seq<PaymentEvent>)
    ensures forall id :: id in ByEventId(events) ==> ByEventId(events)[id] in events && ByEventId(events)[id].eventId == id
    ensures forall e :: e in events ==> e.eventId in ByEventId(events)
  {
    if events != [] {
      ByEventIdIs(events[..|events| - 1]);
      assert events == events[..|events| - 1] + [events[|events| - 1]];
    }
  }

  lemma {:induction false} ByEntryIdIs(lines: seq<TimedLine>)
    ensures forall k :: k in ByEntryId(lines) ==> ByEntryId(lines)[k] in lines && ByEntryId(lines)[k].line.entryId == k
    ensures forall l :: l in lines ==> l.line.entryId in ByEntryId(lines)
  {
    if lines != [] {
      ByEntryIdIs(lines[..|lines| - 1]);
      assert lines == lines[..|lines| - 1] + [lines[|lines| - 1]];
    }
  }

  /** Reconstruction over an affected frame, in the kernel's terms. */
  lemma ReconstructIs(dateOf: PaymentEvent -> string, accepted: Accepted, date: string, frame: seq<PaymentEvent>, t: string)
    requires Keyed(accepted) && forall id :: id in accepted ==> WellFormed(accepted[id])
    requires Listing(frame, Affected(dateOf, accepted, date)) && IdsUnique(frame)
    ensures t in Touched(dateOf, accepted, date) ==> Rows(accepted, t) != []
    ensures t in Reconstruct(frame).current <==> t in Touched(dateOf, accepted, date) && Assess(Rows(accepted, t)).None?
    ensures t in Reconstruct(frame).current ==> Reconstruct(frame).current[t] == StateOf(Rows(accepted, t))
    ensures ErrorAt(frame, t)
         == if t in Touched(dateOf, accepted, date) then Assess(Rows(accepted, t)) else None
  {
    hide BusinessError, Assess, StateOf, CurrentRow, Partition, Affected;
    PartitionLists(dateOf, accepted, date, frame, t);
    var window := Partition(frame, t);
    if t in Touched(dateOf, accepted, date) {
      RowsNonEmpty(accepted, t);
      forall e | e in EventsOf(accepted, t) ensures e.amountMinor > 0 {}
      WindowedEqualsSequential(window, Rows(accepted, t), EventsOf(accepted, t));
    } else {
      ListingLength(window, {});
    }
  }
}
