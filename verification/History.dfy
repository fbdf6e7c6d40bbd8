/** The accepted-event table as a map, and the ordered rows of one transaction. */
module History {
  import opened Sums
  import opened Ordering
  import opened Wrappers
  import opened Contracts
  import opened Lifecycle

  type Accepted = map<string, PaymentEvent>

  ghost predicate Keyed(accepted: Accepted) {
    forall id :: id in accepted ==> accepted[id].eventId == id
  }

  /** ORDER BY transaction_version, event_time, event_id. */
  predicate EventLe(a: PaymentEvent, b: PaymentEvent) {
    if a.transactionVersion != b.transactionVersion then a.transactionVersion < b.transactionVersion
    else if a.eventTime != b.eventTime then StringLe(a.eventTime, b.eventTime)
    else StringLe(a.eventId, b.eventId)
  }

  ghost predicate UniqueIds(events: set<PaymentEvent>) {
    forall a, b :: a in events && b in events && a.eventId == b.eventId ==> a == b
  }

  lemma EventsTotal(events: set<PaymentEvent>)
    requires UniqueIds(events)
    ensures TotalOn(EventLe, events)
  {
    forall a, b | a in events && b in events ensures EventLe(a, b) || EventLe(b, a) {
      StringLeTotal(a.eventTime, b.eventTime);
      StringLeTotal(a.eventId, b.eventId);
    }
    forall a, b | a in events && b in events && EventLe(a, b) && EventLe(b, a) ensures a == b {
      if a.eventTime != b.eventTime {
        StringLeAntisymmetric(a.eventTime, b.eventTime);
      } else {
        StringLeAntisymmetric(a.eventId, b.eventId);
      }
    }
    forall a, b, c | a in events && b in events && c in events && EventLe(a, b) && EventLe(b, c)
      ensures EventLe(a, c)
    {
      EventLeTransitive(a, b, c);
    }
  }

  lemma EventLeTransitive(a: PaymentEvent, b: PaymentEvent, c: PaymentEvent)
    requires EventLe(a, b) && EventLe(b, c)
    ensures EventLe(a, c)
  {
    if a.transactionVersion == b.transactionVersion && b.transactionVersion == c.transactionVersion {
      if a.eventTime == b.eventTime && b.eventTime == c.eventTime {
        StringLeTransitive(a.eventId, b.eventId, c.eventId);
      } else if a.eventTime != b.eventTime && b.eventTime != c.eventTime {
        StringLeTransitive(a.eventTime, b.eventTime, c.eventTime);
        if a.eventTime == c.eventTime {
          StringLeAntisymmetric(a.eventTime, b.eventTime);
        }
      }
    }
  }

  function EventsOf(accepted: Accepted, transactionId: string): set<PaymentEvent> {
    set id | id in accepted && accepted[id].transactionId == transactionId :: accepted[id]
  }

  /** The rows of one transaction, in the order in which the store fetches them. */
  function Rows(accepted: Accepted, transactionId: string): (rows: seq<PaymentEvent>)
    requires Keyed(accepted)
    ensures Listing(rows, EventsOf(accepted, transactionId))
    ensures Ascending(EventLe, rows)
    ensures ByVersion(rows)
  {
    EventsTotal(EventsOf(accepted, transactionId));
    SortSet(EventLe, EventsOf(accepted, transactionId))
  }

  /** Rows come by version, then time, then id; texts compare lexicographically. */
  lemma RowsInOrder(accepted: Accepted, transactionId: string, i: nat, j: nat)
    requires Keyed(accepted) && i < j < |Rows(accepted, transactionId)|
    ensures var a, b := Rows(accepted, transactionId)[i], Rows(accepted, transactionId)[j];
      || a.transactionVersion < b.transactionVersion
      || (a.transactionVersion == b.transactionVersion && a.eventTime != b.eventTime && StringLe(a.eventTime, b.eventTime))
      || (a.transactionVersion == b.transactionVersion && a.eventTime == b.eventTime && StringLe(a.eventId, b.eventId))
  {
    var rows := Rows(accepted, transactionId);
    assert EventLe(rows[i], rows[j]);
  }

  function TransactionSet(accepted: Accepted): set<string> {
    set id | id in accepted :: accepted[id].transactionId
  }

  /** SELECT DISTINCT transaction_id ... ORDER BY transaction_id. */
  function TransactionIds(accepted: Accepted): (ids: seq<string>)
    ensures Listing(ids, TransactionSet(accepted))
  {
    StringsTotal(TransactionSet(accepted));
    SortSet(StringLe, TransactionSet(accepted))
  }

  lemma RowsNonEmpty(accepted: Accepted, transactionId: string)
    requires Keyed(accepted)
    ensures transactionId in TransactionSet(accepted) <==> Rows(accepted, transactionId) != []
  {
    var rows := Rows(accepted, transactionId);
    if transactionId in TransactionSet(accepted) {
      var id :| id in accepted && accepted[id].transactionId == transactionId;
      assert accepted[id] in EventsOf(accepted, transactionId);
      assert accepted[id] in rows;
    }
    if rows != [] {
      assert rows[0] in rows;
    }
  }

  /** Row membership in table terms. */
  lemma RowsAreEvents(accepted: Accepted, transactionId: string, e: PaymentEvent)
    requires Keyed(accepted)
    ensures e in Rows(accepted, transactionId)
       <==> e.eventId in accepted && accepted[e.eventId] == e && e.transactionId == transactionId
  {
    assert e in Rows(accepted, transactionId) <==> e in EventsOf(accepted, transactionId);
  }

  // ---- provenance never matters: delivery time, source and customer ----

  /** An event without the columns that no projection reads. */
  function Projected(e: PaymentEvent): PaymentEvent {
    e.(receivedAt := "", sourceId := "", customerToken := None)
  }

  function Stripped(rows: seq<PaymentEvent>): (r: seq<PaymentEvent>)
    ensures |r| == |rows|
    ensures forall i :: 0 <= i < |rows| ==> r[i] == Projected(rows[i])
  {
    seq(|rows|, i requires 0 <= i < |rows| => Projected(rows[i]))
  }

  ghost predicate SameBusiness(a: Accepted, b: Accepted) {
    a.Keys == b.Keys && forall id :: id in a ==> Business(a[id]) == Business(b[id])
  }

  ghost predicate SameProjected(a: Accepted, b: Accepted) {
    a.Keys == b.Keys && forall id :: id in a ==> Projected(a[id]) == Projected(b[id])
  }

  lemma StrippedListing(accepted: Accepted, transactionId: string, all: set<PaymentEvent>)
    requires Keyed(accepted)
    requires all == set e | e in EventsOf(accepted, transactionId) :: Projected(e)
    ensures Listing(Stripped(Rows(accepted, transactionId)), all)
    ensures Ascending(EventLe, Stripped(Rows(accepted, transactionId)))
    ensures UniqueIds(all)
  {
    var rows := Rows(accepted, transactionId);
    var r := Stripped(rows);
    assert forall i :: 0 <= i < |rows| ==> rows[i] in rows;
    assert forall e :: e in EventsOf(accepted, transactionId) ==> e.eventId in accepted && accepted[e.eventId] == e;
    forall i, j | 0 <= i < j < |r| ensures r[i] != r[j] {
      assert rows[i] != rows[j] && rows[i].eventId != rows[j].eventId;
    }
    forall x | x in all ensures x in r {
      var e :| e in EventsOf(accepted, transactionId) && Projected(e) == x;
      assert e in rows;
      var i :| 0 <= i < |rows| && rows[i] == e;
      assert r[i] == x;
    }
  }

  lemma RowsIgnoreProvenance(a: Accepted, b: Accepted, transactionId: string)
    requires Keyed(a) && Keyed(b) && SameProjected(a, b)
    ensures Stripped(Rows(a, transactionId)) == Stripped(Rows(b, transactionId))
  {
    var left := set e | e in EventsOf(a, transactionId) :: Projected(e);
    var right := set e | e in EventsOf(b, transactionId) :: Projected(e);
    ProjectedSubset(a, b, transactionId);
    ProjectedSubset(b, a, transactionId);
    assert left == right;
    StrippedListing(a, transactionId, left);
    StrippedListing(b, transactionId, left);
    EventsTotal(left);
    AscendingUnique(EventLe, Stripped(Rows(a, transactionId)), Stripped(Rows(b, transactionId)), left);
  }

  lemma ProjectedSubset(a: Accepted, b: Accepted, transactionId: string)
    requires SameProjected(a, b)
    ensures (set e | e in EventsOf(a, transactionId) :: Projected(e))
         <= (set e | e in EventsOf(b, transactionId) :: Projected(e))
  {
    forall e | e in EventsOf(a, transactionId)
      ensures Projected(e) in (set f | f in EventsOf(b, transactionId) :: Projected(f))
    {
      var id :| id in a && a[id] == e;
      assert Projected(b[id]) == Projected(e) && b[id] in EventsOf(b, transactionId);
    }
  }

  lemma TransactionsIgnoreProvenance(a: Accepted, b: Accepted)
    requires SameProjected(a, b)
    ensures TransactionIds(a) == TransactionIds(b)
  {
    assert forall id :: id in a ==> a[id].transactionId == Projected(b[id]).transactionId;
    assert TransactionSet(a) == TransactionSet(b);
  }

  // ---- what the lifecycle verdict and the state row read ----

  /** Equal in every column that the lifecycle kernel reads; the event time is not one of them. */
  predicate SameColumns(e: PaymentEvent, f: PaymentEvent) {
    && e.eventId == f.eventId && e.transactionId == f.transactionId
    && e.transactionVersion == f.transactionVersion && e.eventType == f.eventType && e.amountMinor == f.amountMinor
    && e.currency == f.currency && e.processorId == f.processorId && e.merchantId == f.merchantId
  }

  /** Row by row the same columns. */
  ghost predicate Alike(a: seq<PaymentEvent>, b: seq<PaymentEvent>) {
    |a| == |b| && forall i :: 0 <= i < |a| ==> SameColumns(a[i], b[i])
  }

  lemma StrippedAlike(a: seq<PaymentEvent>, b: seq<PaymentEvent>)
    requires Stripped(a) == Stripped(b)
    ensures Alike(a, b)
  {
    forall i | 0 <= i < |a| ensures SameColumns(a[i], b[i]) {
      assert Stripped(a)[i] == Stripped(b)[i];
    }
  }

  lemma AlikeTail(a: seq<PaymentEvent>, b: seq<PaymentEvent>)
    requires Alike(a, b) && a != []
    ensures SameColumns(a[0], b[0]) && Alike(a[1..], b[1..])
  {
    hide SameColumns;
  }

  /** A column, flag or amount that alike rows share. */
  ghost predicate Respects<T(!new)>(f: PaymentEvent -> T) {
    forall x, y :: SameColumns(x, y) ==> f(x) == f(y)
  }

  lemma {:induction false} FilterAlike(a: seq<PaymentEvent>, b: seq<PaymentEvent>, p: PaymentEvent -> bool)
    requires Alike(a, b) && Respects(p)
    ensures Alike(Filter(a, p), Filter(b, p))
  {
    hide SameColumns;
    if a != [] {
      AlikeTail(a, b);
      FilterAlike(a[1..], b[1..], p);
    }
  }

  lemma {:induction false} SumAlike(a: seq<PaymentEvent>, b: seq<PaymentEvent>, f: PaymentEvent -> int)
    requires Alike(a, b) && Respects(f)
    ensures SumSeq(a, f) == SumSeq(b, f)
  {
    hide SameColumns;
    if a != [] {
      AlikeTail(a, b);
      SumAlike(a[1..], b[1..], f);
    }
  }

  lemma ImageAlike<U(!new)>(a: seq<PaymentEvent>, b: seq<PaymentEvent>, f: PaymentEvent -> U)
    requires Alike(a, b) && Respects(f)
    ensures Image(a, f) == Image(b, f)
  {
    hide SameColumns;
    forall x | x in a ensures f(x) in Image(b, f) {
      var i :| 0 <= i < |a| && a[i] == x;
      assert SameColumns(a[i], b[i]) && b[i] in b;
    }
    forall y | y in b ensures f(y) in Image(a, f) {
      var i :| 0 <= i < |b| && b[i] == y;
      assert SameColumns(a[i], b[i]) && a[i] in a;
    }
  }

  lemma {:induction false} ExtremesAlike(a: seq<PaymentEvent>, b: seq<PaymentEvent>)
    requires Alike(a, b) && a != []
    ensures MinVersion(a) == MinVersion(b) && MaxVersion(a) == MaxVersion(b)
  {
    AlikeTail(a, b);
    if |a| > 1 {
      ExtremesAlike(a[1..], b[1..]);
    }
  }

  lemma TotalsAlike(a: seq<PaymentEvent>, b: seq<PaymentEvent>)
    requires Alike(a, b)
    ensures AuthorizedMinor(a) == AuthorizedMinor(b) && CapturedMinor(a) == CapturedMinor(b)
    ensures RefundedMinor(a) == RefundedMinor(b) && ChargebackMinor(a) == ChargebackMinor(b)
  {
    hide Alike;
    TotalsAreParts(a);
    TotalsAreParts(b);
    SumAlike(a, b, AuthorizedPart);
    SumAlike(a, b, CapturedPart);
    SumAlike(a, b, RefundedPart);
    SumAlike(a, b, ChargebackPart);
  }

  /** The quantities on which the lifecycle verdict depends agree. */
  ghost predicate SameFacts(a: seq<PaymentEvent>, b: seq<PaymentEvent>)
    requires a != [] && b != []
  {
    && |a| == |b|
    && Image(a, Version) == Image(b, Version)
    && Image(a, Currency) == Image(b, Currency)
    && Image(a, Processor) == Image(b, Processor)
    && Image(a, Merchant) == Image(b, Merchant)
    && MinVersion(a) == MinVersion(b) && MaxVersion(a) == MaxVersion(b)
    && SameSelection(Filter(a, IsAuthorization), Filter(b, IsAuthorization))
    && SameSelection(Filter(a, IsCapture), Filter(b, IsCapture))
    && SameSelection(Filter(a, IsReversal), Filter(b, IsReversal))
    && AuthorizedMinor(a) == AuthorizedMinor(b) && CapturedMinor(a) == CapturedMinor(b)
    && RefundedMinor(a) == RefundedMinor(b) && ChargebackMinor(a) == ChargebackMinor(b)
  }

  ghost predicate SameSelection(a: seq<PaymentEvent>, b: seq<PaymentEvent>) {
    && |a| == |b|
    && (a != [] ==> MinVersion(a) == MinVersion(b) && a[0].transactionVersion == b[0].transactionVersion)
  }

  lemma SelectionAlike(a: seq<PaymentEvent>, b: seq<PaymentEvent>, p: PaymentEvent -> bool)
    requires Alike(a, b) && Respects(p)
    ensures SameSelection(Filter(a, p), Filter(b, p))
  {
    FilterAlike(a, b, p);
    if Filter(a, p) != [] {
      ExtremesAlike(Filter(a, p), Filter(b, p));
    }
  }

  lemma SameFactsSameVerdict(a: seq<PaymentEvent>, b: seq<PaymentEvent>)
    requires a != [] && b != [] && SameFacts(a, b)
    ensures Assess(a) == Assess(b)
  {
    hide Filter, SumSeq, Image, MinVersion, MaxVersion, CapturedMinor, AuthorizedMinor, RefundedMinor, ChargebackMinor;
  }

  /** The lifecycle verdict depends on the rows' columns only: not on provenance, nor on event times. */
  lemma AssessReadsColumns(a: seq<PaymentEvent>, b: seq<PaymentEvent>)
    requires Alike(a, b) && a != []
    ensures b != [] && Assess(a) == Assess(b)
  {
    hide Assess, SameColumns;
    TotalsAlike(a, b);
    ColumnsRespect();
    ImageAlike(a, b, Version);
    ImageAlike(a, b, Currency);
    ImageAlike(a, b, Processor);
    ImageAlike(a, b, Merchant);
    ExtremesAlike(a, b);
    SelectionAlike(a, b, IsAuthorization);
    SelectionAlike(a, b, IsCapture);
    SelectionAlike(a, b, IsReversal);
    SameFactsSameVerdict(a, b);
  }

  lemma ColumnsRespect()
    ensures Respects(Version) && Respects(Currency) && Respects(Processor) && Respects(Merchant)
    ensures Respects(IsAuthorization) && Respects(IsCapture) && Respects(IsReversal)
  {
  }

  lemma StateReadsColumns(a: seq<PaymentEvent>, b: seq<PaymentEvent>)
    requires Alike(a, b) && a != []
    ensures b != [] && StateOf(a) == StateOf(b)
  {
    TotalsAlike(a, b);
    assert SameColumns(a[|a| - 1], b[|b| - 1]);
  }
}
