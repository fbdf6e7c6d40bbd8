/**
 The daily ledger view in terms of events: in every reachable lake each account's row counts and sums the captures,
 refunds and chargebacks that were entered for its day and party, and over all days and merchants the receivable
 column is the net column of the payment view.
 */
module DailyViews {
  import opened Sums
  import opened Contracts
  import opened Ledger
  import opened Lifecycle
  import opened History
  import opened Projection
  import opened MoneyLaws
  import opened Pipeline
  import opened PipelineLaws
  import opened FinanceView

  // ---- the events of a day and party ----

  /** The entered events of transactions without exception rows, by the date of the event and its party. */
  function DayEvents(dateOf: string -> string, lake: Lake, key: DailyKey): set<PaymentEvent> {
    set id | && id in lake.accepted && EntryId(id, 1) in lake.ledger
             && !Excepted(lake, lake.accepted[id].transactionId)
             && dateOf(lake.accepted[id].eventTime) == key.date
             && lake.accepted[id].processorId == key.processorId
             && lake.accepted[id].merchantId == key.merchantId
             && lake.accepted[id].currency == key.currency
           :: lake.accepted[id]
  }

  function Where(events: set<PaymentEvent>, p: PaymentEvent -> bool): set<PaymentEvent> {
    set e | e in events && p(e)
  }

  ghost function Money(events: set<PaymentEvent>): int {
    Sum(events, Amount)
  }

  lemma GroupIsDayEvents(dateOf: string -> string, lake: Lake, key: DailyKey)
    requires Invariant(lake)
    ensures GroupEvents(dateOf, lake, key) == DayEvents(dateOf, lake, key)
    ensures forall e :: e in DayEvents(dateOf, lake, key) ==> IsMonetary(e)
  {
    hide Invariant, Excepted, StatesRight, ExceptionsRight, PostedRight, LedgerRight;
    FromInvariant(lake, "");
    forall e | e in GroupEvents(dateOf, lake, key) ensures e in DayEvents(dateOf, lake, key) {
      var l :| l in DailyGroup(dateOf, lake, key) && l.line.eventId in lake.accepted && lake.accepted[l.line.eventId] == e;
      BothSides(lake, dateOf, key, l, e);
      LineIsEvents(lake, l);
    }
    forall e | e in DayEvents(dateOf, lake, key) ensures e in GroupEvents(dateOf, lake, key) && IsMonetary(e) {
      StoredLine(lake, e, 1);
      assert JustifiedLine(lake, EntryId(e.eventId, 1));
      var l := lake.ledger[EntryId(e.eventId, 1)];
      assert l in VisibleLines(lake);
      assert l in DailyGroup(dateOf, lake, key);
    }
  }

  /** A visible line is a line of its event. */
  lemma LineIsEvents(lake: Lake, l: TimedLine)
    requires EventsSound(lake.accepted) && NothingForeign(lake) && l in VisibleLines(lake)
    ensures l.line.eventId in lake.accepted && l.line.entryId in lake.ledger && lake.ledger[l.line.entryId] == l
    ensures !Excepted(lake, l.line.transactionId)
    ensures var e := lake.accepted[l.line.eventId];
      && IsMonetary(e) && (l == DebitLine(e) || l == CreditLine(e))
      && l.line.transactionId == e.transactionId && l.eventTime == e.eventTime
      && l.line.processorId == e.processorId && l.line.merchantId == e.merchantId && l.line.currency == e.currency
      && (EntryId(e.eventId, 1) in lake.ledger || EntryId(e.eventId, 2) in lake.ledger)
  {
    hide Excepted;
    var k :| k in lake.ledger && lake.ledger[k] == l;
    assert JustifiedLine(lake, k);
  }

  // ---- sides of events ----

  lemma NoSharedLine(a: set<PaymentEvent>, b: set<PaymentEvent>)
    ensures DebitsOf(a) !! CreditsOf(b)
  {
    forall e, f | e in a && f in b ensures DebitLine(e) != CreditLine(f) {
      EntryIdInjective(e.eventId, 1, f.eventId, 2);
    }
  }

  function Negated(e: PaymentEvent): int { -e.amountMinor }

  function Nothing(e: PaymentEvent): int { 0 }

  lemma SidesOf(events: set<PaymentEvent>)
    requires UniqueIds(events)
    ensures Sum(DebitsOf(events), TimedSigned) == Money(events) && |DebitsOf(events)| == |events|
    ensures Sum(CreditsOf(events), TimedSigned) == -Money(events) && |CreditsOf(events)| == |events|
  {
    hide EntryId;
    forall e, f | e in events && f in events && (DebitLine(e) == DebitLine(f) || CreditLine(e) == CreditLine(f)) ensures e == f {
      assert DebitLine(e).line.eventId == e.eventId && CreditLine(e).line.eventId == e.eventId;
    }
    SumImage(events, DebitsOf(events), DebitLine, TimedSigned, Amount);
    SumImage(events, CreditsOf(events), CreditLine, TimedSigned, Negated);
    SumAdd(events, Amount, Negated, Nothing);
    SumZero(events, Nothing);
  }

  lemma NamesDiffer()
    ensures PROCESSOR_RECEIVABLE != MERCHANT_PAYABLE && MERCHANT_PAYABLE != CHARGEBACK_LOSS
    ensures PROCESSOR_RECEIVABLE != CHARGEBACK_LOSS
  {
    assert PROCESSOR_RECEIVABLE[0] == 'p' && MERCHANT_PAYABLE[0] == 'm' && CHARGEBACK_LOSS[0] == 'c';
  }

  /** Which sides of which events lie on an account. */
  lemma AccountSides(events: set<PaymentEvent>)
    requires forall e :: e in events ==> IsMonetary(e)
    ensures var lines := DebitsOf(events) + CreditsOf(events);
      && OnAccount(lines, PROCESSOR_RECEIVABLE) == DebitsOf(Where(events, IsCapture)) + CreditsOf(Where(events, IsReversal))
      && OnAccount(lines, MERCHANT_PAYABLE) == DebitsOf(Where(events, IsRefund)) + CreditsOf(Where(events, IsCapture))
      && OnAccount(lines, CHARGEBACK_LOSS) == DebitsOf(Where(events, IsChargeback))
  {
    NamesDiffer();
    var lines := DebitsOf(events) + CreditsOf(events);
    forall l ensures l in OnAccount(lines, PROCESSOR_RECEIVABLE)
                <==> l in DebitsOf(Where(events, IsCapture)) + CreditsOf(Where(events, IsReversal)) {}
    forall l ensures l in OnAccount(lines, MERCHANT_PAYABLE)
                <==> l in DebitsOf(Where(events, IsRefund)) + CreditsOf(Where(events, IsCapture)) {}
    forall l ensures l in OnAccount(lines, CHARGEBACK_LOSS) <==> l in DebitsOf(Where(events, IsChargeback)) {}
  }

  lemma ReversalsSplit(events: set<PaymentEvent>)
    ensures Money(Where(events, IsReversal)) == Money(Where(events, IsRefund)) + Money(Where(events, IsChargeback))
    ensures |Where(events, IsReversal)| == |Where(events, IsRefund)| + |Where(events, IsChargeback)|
  {
    SumUnion(Where(events, IsRefund), Where(events, IsChargeback), Amount);
    assert Where(events, IsReversal) == Where(events, IsRefund) + Where(events, IsChargeback);
  }

  lemma TwoSides(debits: set<PaymentEvent>, credits: set<PaymentEvent>)
    requires UniqueIds(debits) && UniqueIds(credits)
    ensures Sum(DebitsOf(debits) + CreditsOf(credits), TimedSigned) == Money(debits) - Money(credits)
    ensures |DebitsOf(debits) + CreditsOf(credits)| == |debits| + |credits|
  {
    hide Money;
    SidesOf(debits);
    SidesOf(credits);
    NoSharedLine(debits, credits);
    SumUnion(DebitsOf(debits), CreditsOf(credits), TimedSigned);
  }

  /**
   In every reachable lake: the receivable of a day and party is what its entered events captured, less what they
   refunded and charged back, what is payable to the merchant is the refunds less the captures, the loss is the
   chargebacks, and every row counts the events that enter it.
   */
  lemma DailyRowsAreExact(dating: Dating, steps: seq<Step>, dateOf: string -> string, key: DailyKey)
    ensures var lake := After(dating, steps);
      var events := DayEvents(dateOf, lake, key);
      var captures, refunds, chargebacks := Where(events, IsCapture), Where(events, IsRefund), Where(events, IsChargeback);
      && FctLedgerDaily(dateOf, lake, key, "processor_receivable")
         == (|captures| + |refunds| + |chargebacks|, Money(captures) - Money(refunds) - Money(chargebacks))
      && FctLedgerDaily(dateOf, lake, key, "merchant_payable") == (|captures| + |refunds|, Money(refunds) - Money(captures))
      && FctLedgerDaily(dateOf, lake, key, "chargeback_loss") == (|chargebacks|, Money(chargebacks))
  {
    hide Invariant, After, VisibleLines, DayEvents, GroupEvents, DailyGroup, DebitsOf, CreditsOf, OnAccount, Money, Where;
    var lake := After(dating, steps);
    AlwaysInvariant(dating, steps);
    GroupIsPairs(dateOf, lake, key);
    GroupIsDayEvents(dateOf, lake, key);
    DaySides(DayEvents(dateOf, lake, key));
  }

  lemma DaySides(events: set<PaymentEvent>)
    requires UniqueIds(events) && forall e :: e in events ==> IsMonetary(e)
    ensures var lines := DebitsOf(events) + CreditsOf(events);
      var captures, refunds, chargebacks := Where(events, IsCapture), Where(events, IsRefund), Where(events, IsChargeback);
      && |OnAccount(lines, PROCESSOR_RECEIVABLE)| == |captures| + |refunds| + |chargebacks|
      && Sum(OnAccount(lines, PROCESSOR_RECEIVABLE), TimedSigned) == Money(captures) - Money(refunds) - Money(chargebacks)
      && |OnAccount(lines, MERCHANT_PAYABLE)| == |captures| + |refunds|
      && Sum(OnAccount(lines, MERCHANT_PAYABLE), TimedSigned) == Money(refunds) - Money(captures)
      && |OnAccount(lines, CHARGEBACK_LOSS)| == |chargebacks|
      && Sum(OnAccount(lines, CHARGEBACK_LOSS), TimedSigned) == Money(chargebacks)
  {
    hide DebitsOf, CreditsOf, OnAccount, Money;
    AccountSides(events);
    ReversalsSplit(events);
    TwoSides(Where(events, IsCapture), Where(events, IsReversal));
    TwoSides(Where(events, IsRefund), Where(events, IsCapture));
    SidesOf(Where(events, IsChargeback));
  }

  // ---- sums by key ----

  function Under<T(!new), K(==)>(s: set<T>, keyOf: T -> K, key: K): set<T> {
    set x | x in s && keyOf(x) == key
  }

  ghost function SumUnder<T(!new), K>(s: set<T>, keyOf: T -> K, f: T -> int): K -> int {
    (key: K) => Sum(Under(s, keyOf, key), f)
  }

  /** Grouping by a key and summing the groups is summing. */
  lemma {:induction false} SumByKey<T(!new), K(!new)>(s: set<T>, keyOf: T -> K, keys: set<K>, f: T -> int)
    requires forall x :: x in s ==> keyOf(x) in keys
    ensures Sum(keys, SumUnder(s, keyOf, f)) == Sum(s, f)
  {
    if keys == {} {
      assert s == {};
    } else {
      var key :| key in keys;
      var own, rest := Under(s, keyOf, key), s - Under(s, keyOf, key);
      SumRemove(keys, SumUnder(s, keyOf, f), key);
      SumByKey(rest, keyOf, keys - {key}, f);
      forall k | k in keys - {key} ensures SumUnder(s, keyOf, f)(k) == SumUnder(rest, keyOf, f)(k) {
        assert Under(s, keyOf, k) == Under(rest, keyOf, k);
      }
      SumCong(keys - {key}, SumUnder(s, keyOf, f), SumUnder(rest, keyOf, f));
      SumUnion(own, rest, f);
      assert own + rest == s;
    }
  }

  /** Summing over an image under which no two elements meet. */
  lemma {:induction false} SumImage<T(!new), U(!new)>(s: set<T>, image: set<U>, g: T -> U, f: U -> int, h: T -> int)
    requires image == set x | x in s :: g(x)
    requires forall x, y :: x in s && y in s && g(x) == g(y) ==> x == y
    requires forall x :: x in s ==> h(x) == f(g(x))
    ensures Sum(image, f) == Sum(s, h) && |image| == |s|
  {
    if s == {} {
      assert image == {};
    } else {
      var x :| x in s;
      var rest := s - {x};
      var smaller := set y | y in rest :: g(y);
      assert image == smaller + {g(x)} && g(x) !in smaller;
      SumImage(rest, smaller, g, f, h);
      SumRemove(s, h, x);
      SumInsert(smaller, f, g(x));
    }
  }

  // ---- the two views joined ----

  function DailyKeyOf(dateOf: string -> string): TimedLine -> DailyKey {
    (l: TimedLine) => DailyKey(dateOf(l.eventTime), l.line.processorId, l.line.merchantId, l.line.currency)
  }

  function TransactionOf(l: TimedLine): string { l.line.transactionId }

  /** The days and merchants for which the view has lines of the processor and currency. */
  function DailyKeys(dateOf: string -> string, lake: Lake, processorId: string, currency: string): set<DailyKey> {
    set l | l in VisibleLines(lake) && l.line.processorId == processorId && l.line.currency == currency :: DailyKeyOf(dateOf)(l)
  }

  /** The shown transactions of the processor and currency. */
  function ShownOf(lake: Lake, processorId: string, currency: string): set<string> {
    set t | t in DimPaymentCurrent(lake)
            && DimPaymentCurrent(lake)[t].state.processorId == processorId
            && DimPaymentCurrent(lake)[t].state.currency == currency
  }

  ghost function ReceivableColumn(dateOf: string -> string, lake: Lake): DailyKey -> int {
    (key: DailyKey) => FctLedgerDaily(dateOf, lake, key, PROCESSOR_RECEIVABLE).1
  }

  function NetColumn(lake: Lake): string -> int {
    (t: string) => if t in DimPaymentCurrent(lake) then DimPaymentCurrent(lake)[t].netProcessorReceivable else 0
  }

  function ReceivableLines(lake: Lake, processorId: string, currency: string): set<TimedLine> {
    set l | l in VisibleLines(lake) && l.line.processorId == processorId && l.line.currency == currency
            && l.line.account == PROCESSOR_RECEIVABLE
  }

  lemma ColumnByDay(dateOf: string -> string, lake: Lake, processorId: string, currency: string)
    ensures Sum(DailyKeys(dateOf, lake, processorId, currency), ReceivableColumn(dateOf, lake))
         == Sum(ReceivableLines(lake, processorId, currency), TimedSigned)
  {
    hide VisibleLines;
    var keys, lines := DailyKeys(dateOf, lake, processorId, currency), ReceivableLines(lake, processorId, currency);
    SumByKey(lines, DailyKeyOf(dateOf), keys, TimedSigned);
    forall key | key in keys
      ensures ReceivableColumn(dateOf, lake)(key) == SumUnder(lines, DailyKeyOf(dateOf), TimedSigned)(key)
    {
      assert OnAccount(DailyGroup(dateOf, lake, key), PROCESSOR_RECEIVABLE) == Under(lines, DailyKeyOf(dateOf), key);
    }
    SumCong(keys, ReceivableColumn(dateOf, lake), SumUnder(lines, DailyKeyOf(dateOf), TimedSigned));
  }

  ghost predicate AllCarried(lake: Lake) {
    forall t :: t in TransactionSet(lake.accepted) ==> CarriedThrough(lake, t)
  }

  /** A visible line belongs to a shown transaction of its party. */
  lemma LineIsShown(lake: Lake, l: TimedLine)
    requires Invariant(lake) && AllCarried(lake) && l in VisibleLines(lake)
    ensures var t := l.line.transactionId;
      t in TransactionSet(lake.accepted) && t in ShownOf(lake, l.line.processorId, l.line.currency)
  {
    hide Invariant, VisibleLines, Excepted, CarriedThrough, StatesRight, ExceptionsRight, PostedRight, LedgerRight, Paired;
    hide DimPaymentCurrent, Assess, Rows, StateOf, NothingForeign;
    var t := l.line.transactionId;
    FromInvariant(lake, t);
    LineIsEvents(lake, l);
    EventHasTransaction(lake.accepted, l.line.eventId);
    assert CarriedThrough(lake, t);
    Carries(lake, t);
    HiddenWhenInvalid(lake, t);
    RowsNonEmpty(lake.accepted, t);
    ShownState(lake, t);
    assert Projection.Valid(lake.accepted, t);
    PartyOfLine(lake, t, l);
  }

  lemma EventHasTransaction(accepted: Accepted, id: string)
    requires id in accepted
    ensures accepted[id].transactionId in TransactionSet(accepted)
  {
  }

  lemma Carries(lake: Lake, t: string)
    requires CarriedThrough(lake, t)
    ensures Carried(lake, t, ExceptionMerge)
  {
  }

  /** All visible lines of a valid transaction have the party of its state. */
  lemma PartyOfLine(lake: Lake, t: string, l: TimedLine)
    requires EventsSound(lake.accepted) && NothingForeign(lake)
    requires Projection.Valid(lake.accepted, t) && l in VisibleLines(lake) && l.line.transactionId == t
    ensures var s := StateOf(Rows(lake.accepted, t)); l.line.processorId == s.processorId && l.line.currency == s.currency
  {
    hide VisibleLines, NothingForeign, Assess, AuthorizedMinor, CapturedMinor, RefundedMinor, ChargebackMinor;
    var rows := Rows(lake.accepted, t);
    AcceptedHasShape(rows);
    LineIsEvents(lake, l);
    var e := lake.accepted[l.line.eventId];
    RowsAreEvents(lake.accepted, t, e);
    assert rows[|rows| - 1] in rows;
  }

  lemma NetOfTransaction(lake: Lake, t: string, processorId: string, currency: string)
    requires Invariant(lake) && AllCarried(lake) && t in ShownOf(lake, processorId, currency)
    ensures NetColumn(lake)(t) == Sum(Under(ReceivableLines(lake, processorId, currency), TransactionOf, t), TimedSigned)
  {
    hide Invariant, VisibleLines, Excepted, CarriedThrough, StatesRight, ExceptionsRight, PostedRight, LedgerRight, Paired;
    hide DimPaymentCurrent, Assess, Rows, StateOf, NothingForeign;
    FromInvariant(lake, t);
    StatedIsKnown(lake, t);
    assert CarriedThrough(lake, t);
    ShownState(lake, t);
    NetIsLedgerBalance(lake, t);
    var all := set l | l in VisibleLines(lake) && l.line.transactionId == t;
    var own := Under(ReceivableLines(lake, processorId, currency), TransactionOf, t);
    TimedSum(lake, t, all);
    forall l | l in all ensures l.line.processorId == processorId && l.line.currency == currency {
      PartyOfLine(lake, t, l);
    }
    SumSupport(own, all, TimedReceivable);
    SumCong(own, TimedReceivable, TimedSigned);
  }

  function TimedReceivable(l: TimedLine): int { ReceivablePart(l.line) }

  lemma StatedIsKnown(lake: Lake, t: string)
    requires NothingForeign(lake) && t in DimPaymentCurrent(lake)
    ensures t in TransactionSet(lake.accepted)
  {
    hide JustifiedLine, Excepted;
  }

  function LineOfTimed(l: TimedLine): PostingLine { l.line }

  lemma TimedSum(lake: Lake, t: string, all: set<TimedLine>)
    requires EventsSound(lake.accepted) && NothingForeign(lake)
    requires all == set l | l in VisibleLines(lake) && l.line.transactionId == t
    ensures Sum(LinesOfTransaction(lake, t), ReceivablePart) == Sum(all, TimedReceivable)
  {
    hide VisibleLines, NothingForeign;
    forall x, y | x in all && y in all && LineOfTimed(x) == LineOfTimed(y) ensures x == y {
      LineIsEvents(lake, x);
      LineIsEvents(lake, y);
    }
    forall line ensures line in LinesOfTransaction(lake, t) <==> exists l :: l in all && LineOfTimed(l) == line {
      if line in LinesOfTransaction(lake, t) {
        var l :| l in VisibleLines(lake) && l.line.transactionId == t && l.line == line;
        assert l in all && LineOfTimed(l) == line;
      }
    }
    assert LinesOfTransaction(lake, t) == set l | l in all :: LineOfTimed(l);
    SumImage(all, LinesOfTransaction(lake, t), LineOfTimed, ReceivablePart, TimedReceivable);
  }

  /**
   Once every accepted event has been carried through, the receivable column of the daily ledger, summed over days and
   merchants, is the net column of the payment view, summed over transactions, for every processor and currency.
   */
  lemma ViewsAgree(dating: Dating, steps: seq<Step>, dateOf: string -> string, processorId: string, currency: string)
    requires AllCarried(After(dating, steps))
    ensures var lake := After(dating, steps);
      Sum(DailyKeys(dateOf, lake, processorId, currency), ReceivableColumn(dateOf, lake))
      == Sum(ShownOf(lake, processorId, currency), NetColumn(lake))
  {
    hide Invariant, After, VisibleLines, DimPaymentCurrent, AllCarried, NetColumn, ReceivableColumn, DailyKeys, ShownOf, TransactionOf;
    var lake := After(dating, steps);
    AlwaysInvariant(dating, steps);
    ColumnByDay(dateOf, lake, processorId, currency);
    var lines, shown := ReceivableLines(lake, processorId, currency), ShownOf(lake, processorId, currency);
    forall l | l in lines ensures TransactionOf(l) in shown {
      LineIsShown(lake, l);
      TransactionIs(l);
    }
    SumByKey(lines, TransactionOf, shown, TimedSigned);
    forall t | t in shown ensures NetColumn(lake)(t) == SumUnder(lines, TransactionOf, TimedSigned)(t) {
      NetOfTransaction(lake, t, processorId, currency);
    }
    SumCong(shown, NetColumn(lake), SumUnder(lines, TransactionOf, TimedSigned));
  }

  lemma TransactionIs(l: TimedLine)
    ensures TransactionOf(l) == l.line.transactionId
  {
  }
}
