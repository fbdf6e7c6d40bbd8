/**
 Conservation of events and of money: accepted events are all accounted for, the ledger always
 balances, and ledger, payment state and expected settlement agree on what processors owe.
 */
module MoneyLaws {
  import opened Sums
  import opened Contracts
  import opened Ledger
  import opened Lifecycle
  import opened History
  import opened Projection
  import opened Settlement
  import opened Runs

  // ---- conservation of events ----

  function CurrentVersion(s: PaymentState): int { s.currentVersion }

  function Events(accepted: Accepted): set<PaymentEvent> {
    set id | id in accepted :: accepted[id]
  }

  lemma {:induction false} EventCount(accepted: Accepted)
    requires Keyed(accepted)
    ensures |Events(accepted)| == |accepted|
  {
    if accepted == map[] {
      assert Events(accepted) == {};
    } else {
      assert accepted.Keys != {};
      var id :| id in accepted;
      var rest := accepted - {id};
      assert rest.Keys == accepted.Keys - {id};
      EventCount(rest);
      assert forall k :: k in accepted ==> k == id || (k in rest && rest[k] == accepted[k]);
      assert Events(accepted) == Events(rest) + {accepted[id]};
      assert accepted[id] !in Events(rest);
    }
  }

  function EventsAmong(accepted: Accepted, ids: seq<string>): set<PaymentEvent> {
    set id | id in accepted && accepted[id].transactionId in ids :: accepted[id]
  }

  lemma TransactionCount(rows: seq<PaymentEvent>, rules: PostingRules)
    requires ByVersion(rows)
    ensures var t := TransactionTables(rows, rules);
      |t.exceptions| + SumSeq(t.states, CurrentVersion) == |rows|
  {
    if rows != [] && Assess(rows).None? {
      AcceptedHasShape(rows);
      PostedTablesRows(rows, rules);
      assert TransactionTables(rows, rules).states == [StateOf(rows)];
      SumSeqSingle(StateOf(rows), CurrentVersion);
    }
  }

  lemma {:induction false} PrefixCount(accepted: Accepted, ids: seq<string>, rules: PostingRules)
    requires Keyed(accepted) && Distinct(ids)
    ensures var t := ProjectFirst(accepted, ids, rules);
      |t.exceptions| + SumSeq(t.states, CurrentVersion) == |EventsAmong(accepted, ids)|
  {
    if ids == [] {
      assert EventsAmong(accepted, ids) == {};
    } else {
      var front, id := ids[..|ids| - 1], ids[|ids| - 1];
      assert ids == front + [id];
      PrefixCount(accepted, front, rules);
      var rows := Rows(accepted, id);
      TransactionCount(rows, rules);
      ListingLength(rows, EventsOf(accepted, id));
      SumSeqConcat(ProjectFirst(accepted, front, rules).states, TransactionTables(rows, rules).states, CurrentVersion);
      EventsSplit(accepted, front, id);
    }
  }

  lemma EventsSplit(accepted: Accepted, front: seq<string>, id: string)
    requires id !in front
    ensures |EventsAmong(accepted, front + [id])| == |EventsAmong(accepted, front)| + |EventsOf(accepted, id)|
  {
    assert EventsAmong(accepted, front + [id]) == EventsAmong(accepted, front) + EventsOf(accepted, id);
    assert EventsAmong(accepted, front) !! EventsOf(accepted, id);
  }

  /** Accepted events = exception rows + the sum of current versions over the state rows. */
  lemma EventsAreConserved(accepted: Accepted, rules: PostingRules)
    requires Keyed(accepted)
    ensures var t := Project(accepted, rules);
      |accepted| == |t.exceptions| + SumSeq(t.states, CurrentVersion)
  {
    var ids := TransactionIds(accepted);
    PrefixCount(accepted, ids, rules);
    EventCount(accepted);
    assert EventsAmong(accepted, ids) == Events(accepted) by {
      forall id | id in accepted ensures accepted[id].transactionId in ids {
        assert accepted[id].transactionId in TransactionSet(accepted);
      }
    }
  }

  // ---- the ledger balances ----

  lemma LineGroup(e: PaymentEvent, rules: PostingRules, eventId: string, currency: string)
    requires EventPostable(e, rules)
    ensures GroupSum(LinesOf(e, rules), eventId, currency) == 0
    ensures SumSeq(LinesOf(e, rules), Signed) == 0
  {
    LinesOfSum(e, rules);
  }

  lemma {:induction false} PostedBalance(events: seq<PaymentEvent>, rules: PostingRules, eventId: string, currency: string)
    requires forall e :: e in events ==> EventPostable(e, rules)
    ensures GroupSum(PostedTables(events, rules).ledger, eventId, currency) == 0
    ensures SumSeq(PostedTables(events, rules).ledger, Signed) == 0
  {
    if events != [] {
      var front, e := events[..|events| - 1], events[|events| - 1];
      PostedBalance(front, rules, eventId, currency);
      assert e in events;
      LineGroup(e, rules, eventId, currency);
      var before := PostedTables(front, rules).ledger;
      SumSeqConcat(before, LinesOf(e, rules), GroupPart(eventId, currency));
      SumSeqConcat(before, LinesOf(e, rules), Signed);
    }
  }

  lemma {:induction false} PrefixBalance(accepted: Accepted, ids: seq<string>, rules: PostingRules, eventId: string, currency: string)
    requires Keyed(accepted) && Postable(accepted, ids, rules)
    ensures GroupSum(ProjectFirst(accepted, ids, rules).ledger, eventId, currency) == 0
    ensures SumSeq(ProjectFirst(accepted, ids, rules).ledger, Signed) == 0
  {
    if ids != [] {
      var front, id := ids[..|ids| - 1], ids[|ids| - 1];
      assert id in ids;
      PrefixBalance(accepted, front, rules, eventId, currency);
      var rows := Rows(accepted, id);
      var added := TransactionTables(rows, rules).ledger;
      if rows != [] && Assess(rows).None? {
        PostedBalance(rows, rules, eventId, currency);
        assert added == PostedTables(rows, rules).ledger;
      }
      var before := ProjectFirst(accepted, front, rules).ledger;
      SumSeqConcat(before, added, GroupPart(eventId, currency));
      SumSeqConcat(before, added, Signed);
    }
  }

  /** Every committed ledger balances per event and currency, and in total. */
  lemma LedgerBalances(accepted: Accepted, rules: PostingRules)
    requires Keyed(accepted) && Postable(accepted, TransactionIds(accepted), rules)
    ensures Balanced(Project(accepted, rules).ledger)
    ensures SumSeq(Project(accepted, rules).ledger, Signed) == 0
  {
    var ids := TransactionIds(accepted);
    forall eventId, currency
      ensures GroupSum(Project(accepted, rules).ledger, eventId, currency) == 0
    {
      PrefixBalance(accepted, ids, rules, eventId, currency);
    }
    PrefixBalance(accepted, ids, rules, "", "");
  }

  // ---- what one event contributes, three ways ----

  function NetPart(e: PaymentEvent): int {
    CapturedPart(e) - RefundedPart(e) - ChargebackPart(e)
  }

  function Net(s: PaymentState): int {
    s.capturedMinor - s.refundedMinor - s.chargebackMinor
  }

  function ReceivablePart(l: PostingLine): int {
    if l.account == PROCESSOR_RECEIVABLE then l.signedMinor else 0
  }

  lemma EventReceivable(e: PaymentEvent)
    ensures SumSeq(LinesOf(e, CONFIGURED_RULES), ReceivablePart) == NetPart(e)
  {
    var lines := LinesOf(e, CONFIGURED_RULES);
    if !IsAuthorization(e) {
      assert |lines| == 2;
      assert lines == [lines[0]] + [lines[1]];
      SumSeqConcat([lines[0]], [lines[1]], ReceivablePart);
      SumSeqSingle(lines[0], ReceivablePart);
      SumSeqSingle(lines[1], ReceivablePart);
    }
  }

  lemma {:induction false} NetOfEvents(events: seq<PaymentEvent>)
    ensures SumSeq(events, NetPart) == CapturedMinor(events) - RefundedMinor(events) - ChargebackMinor(events)
  {
    TotalsAreParts(events);
    NetOfParts(events);
  }

  lemma {:induction false} NetOfParts(events: seq<PaymentEvent>)
    ensures SumSeq(events, NetPart)
         == SumSeq(events, CapturedPart) - SumSeq(events, RefundedPart) - SumSeq(events, ChargebackPart)
  {
    if events != [] { NetOfParts(events[1..]); }
  }

  lemma {:induction false} PostedSums(events: seq<PaymentEvent>)
    ensures var t := PostedTables(events, CONFIGURED_RULES);
      && SumSeq(t.ledger, ReceivablePart) == SumSeq(events, NetPart)
      && SumSeq(t.posted, Contribution) == SumSeq(events, NetPart)
  {
    hide LinesOf, NetPart, EventTables, Contribution, ReceivablePart;
    if events != [] {
      var front, e := events[..|events| - 1], events[|events| - 1];
      PostedSums(front);
      var before, one := PostedTables(front, CONFIGURED_RULES), EventTables(e, CONFIGURED_RULES);
      EventSums(e);
      SumSeqConcat(before.ledger, one.ledger, ReceivablePart);
      SumSeqConcat(before.posted, one.posted, Contribution);
      assert events == front + [e];
      SumSeqConcat(front, [e], NetPart);
      SumSeqSingle(e, NetPart);
    }
  }

  lemma EventSums(e: PaymentEvent)
    ensures SumSeq(EventTables(e, CONFIGURED_RULES).ledger, ReceivablePart) == NetPart(e)
    ensures SumSeq(EventTables(e, CONFIGURED_RULES).posted, Contribution) == NetPart(e)
  {
    EventReceivable(e);
    if !IsAuthorization(e) {
      SumSeqSingle(PostedOf(e), Contribution);
    }
  }

  // ---- per processor and currency ----

  function ReceivableOf(processorId: string, currency: string): PostingLine -> int {
    (l: PostingLine) => if l.processorId == processorId && l.currency == currency then ReceivablePart(l) else 0
  }

  function ContributionOf(processorId: string, currency: string): PostedRow -> int {
    (r: PostedRow) => if r.processorId == processorId && r.currency == currency then Contribution(r) else 0
  }

  function NetOf(processorId: string, currency: string): PaymentState -> int {
    (s: PaymentState) => if s.processorId == processorId && s.currency == currency then Net(s) else 0
  }

  function ReceivableIn(transactionId: string): PostingLine -> int {
    (l: PostingLine) => if l.transactionId == transactionId then ReceivablePart(l) else 0
  }

  function NetIn(transactionId: string): PaymentState -> int {
    (s: PaymentState) => if s.transactionId == transactionId then Net(s) else 0
  }

  /** All posting rows of a valid transaction belong to its one processor and currency. */
  lemma PartyOfPostings(rows: seq<PaymentEvent>)
    requires AcceptedShape(rows)
    ensures var t, s := PostedTables(rows, CONFIGURED_RULES), StateOf(rows);
      && (forall l :: l in t.ledger ==> l.processorId == s.processorId && l.currency == s.currency)
      && (forall r :: r in t.posted ==> r.processorId == s.processorId && r.currency == s.currency)
  {
    hide LinesOf, PostedTables, Contribution, AuthorizedMinor, CapturedMinor, RefundedMinor, ChargebackMinor;
    PostedTablesRows(rows, CONFIGURED_RULES);
    assert rows[|rows| - 1] in rows;
    var t, s := PostedTables(rows, CONFIGURED_RULES), StateOf(rows);
    assert forall e :: e in rows ==> e.processorId == s.processorId && e.currency == s.currency;
    forall l | l in t.ledger ensures l.processorId == s.processorId && l.currency == s.currency {
      var e :| e in rows && l in LinesOf(e, CONFIGURED_RULES);
      LineParty(e, l);
    }
  }

  lemma LineParty(e: PaymentEvent, l: PostingLine)
    requires l in LinesOf(e, CONFIGURED_RULES)
    ensures l.processorId == e.processorId && l.currency == e.currency
  {
  }

  lemma ValidMoney(rows: seq<PaymentEvent>)
    requires rows != [] && ByVersion(rows) && Assess(rows).None?
    ensures AcceptedShape(rows)
    ensures Net(StateOf(rows)) >= 0
    ensures SumSeq(PostedTables(rows, CONFIGURED_RULES).ledger, ReceivablePart) == Net(StateOf(rows))
    ensures SumSeq(PostedTables(rows, CONFIGURED_RULES).posted, Contribution) == Net(StateOf(rows))
  {
    hide LinesOf, PostedTables, Assess;
    AcceptedHasShape(rows);
    PostedSums(rows);
    NetOfEvents(rows);
  }

  /** A valid transaction's tables: its postings and its one state. */
  lemma ValidTables(rows: seq<PaymentEvent>, rules: PostingRules)
    requires rows != [] && Assess(rows).None?
    ensures var t, p := TransactionTables(rows, rules), PostedTables(rows, rules);
      t.exceptions == [] && t.posted == p.posted && t.ledger == p.ledger && t.states == [StateOf(rows)]
  {
    PostedTablesRows(rows, rules);
  }

  lemma TransactionMoney(rows: seq<PaymentEvent>, processorId: string, currency: string)
    requires ByVersion(rows)
    ensures var t := TransactionTables(rows, CONFIGURED_RULES);
      && SumSeq(t.ledger, ReceivableOf(processorId, currency)) == SumSeq(t.states, NetOf(processorId, currency))
      && SumSeq(t.posted, ContributionOf(processorId, currency)) == SumSeq(t.states, NetOf(processorId, currency))
      && SumSeq(t.states, NetOf(processorId, currency)) >= 0
  {
    if rows != [] && Assess(rows).None? {
      ValidTransactionMoney(rows, processorId, currency);
    }
  }

  lemma ValidTransactionMoney(rows: seq<PaymentEvent>, processorId: string, currency: string)
    requires rows != [] && ByVersion(rows) && Assess(rows).None?
    ensures var t := TransactionTables(rows, CONFIGURED_RULES);
      && SumSeq(t.ledger, ReceivableOf(processorId, currency)) == SumSeq(t.states, NetOf(processorId, currency))
      && SumSeq(t.posted, ContributionOf(processorId, currency)) == SumSeq(t.states, NetOf(processorId, currency))
      && SumSeq(t.states, NetOf(processorId, currency)) >= 0
  {
    hide LinesOf, PostedTables, TransactionTables, Assess, AcceptedShape, ByVersion, StateOf, Contribution, ReceivablePart;
    ValidMoney(rows);
    PartyOfPostings(rows);
    ValidTables(rows, CONFIGURED_RULES);
    var t, s := PostedTables(rows, CONFIGURED_RULES), StateOf(rows);
    SumSeqSingle(s, NetOf(processorId, currency));
    if s.processorId == processorId && s.currency == currency {
      SumSeqCong(t.ledger, ReceivableOf(processorId, currency), ReceivablePart);
      SumSeqCong(t.posted, ContributionOf(processorId, currency), Contribution);
    } else {
      SumSeqZero(t.ledger, ReceivableOf(processorId, currency));
      SumSeqZero(t.posted, ContributionOf(processorId, currency));
    }
  }

  lemma {:induction false} PrefixMoney(accepted: Accepted, ids: seq<string>, processorId: string, currency: string)
    requires Keyed(accepted)
    ensures var t := ProjectFirst(accepted, ids, CONFIGURED_RULES);
      && SumSeq(t.ledger, ReceivableOf(processorId, currency)) == SumSeq(t.states, NetOf(processorId, currency))
      && SumSeq(t.posted, ContributionOf(processorId, currency)) == SumSeq(t.states, NetOf(processorId, currency))
      && SumSeq(t.states, NetOf(processorId, currency)) >= 0
  {
    hide TransactionTables, Rows;
    if ids != [] {
      var front, id := ids[..|ids| - 1], ids[|ids| - 1];
      PrefixMoney(accepted, front, processorId, currency);
      var rows := Rows(accepted, id);
      TransactionMoney(rows, processorId, currency);
      var before, added := ProjectFirst(accepted, front, CONFIGURED_RULES), TransactionTables(rows, CONFIGURED_RULES);
      SumSeqConcat(before.ledger, added.ledger, ReceivableOf(processorId, currency));
      SumSeqConcat(before.posted, added.posted, ContributionOf(processorId, currency));
      SumSeqConcat(before.states, added.states, NetOf(processorId, currency));
    }
  }

  // ---- expected settlement, summed over dates ----

  function GroupTotal(posted: seq<PostedRow>): SettlementKey -> int {
    (key: SettlementKey) => SumSeq(posted, ContributionTo(key))
  }

  function Share(r: PostedRow): SettlementKey -> int {
    (key: SettlementKey) => if KeyOf(r) == key then Contribution(r) else 0
  }

  lemma ShareTotal(keys: set<SettlementKey>, r: PostedRow, processorId: string, currency: string)
    requires forall key :: key in keys ==> key.processorId == processorId && key.currency == currency
    requires r.processorId == processorId && r.currency == currency ==> KeyOf(r) in keys
    ensures Sum(keys, Share(r)) == ContributionOf(processorId, currency)(r)
  {
    if KeyOf(r) in keys {
      SumRemove(keys, Share(r), KeyOf(r));
      SumZero(keys - {KeyOf(r)}, Share(r));
    } else {
      SumZero(keys, Share(r));
    }
  }

  lemma {:induction false} GroupsTotal(keys: set<SettlementKey>, posted: seq<PostedRow>, processorId: string, currency: string)
    requires forall key :: key in keys ==> key.processorId == processorId && key.currency == currency
    requires forall r :: r in posted && r.processorId == processorId && r.currency == currency ==> KeyOf(r) in keys
    ensures Sum(keys, GroupTotal(posted)) == SumSeq(posted, ContributionOf(processorId, currency))
  {
    if posted == [] {
      SumZero(keys, GroupTotal(posted));
    } else {
      GroupsTotal(keys, posted[1..], processorId, currency);
      ShareTotal(keys, posted[0], processorId, currency);
      SumAdd(keys, Share(posted[0]), GroupTotal(posted[1..]), GroupTotal(posted));
    }
  }

  function PartyKeys(amounts: Amounts, processorId: string, currency: string): set<SettlementKey> {
    set key | key in amounts && key.processorId == processorId && key.currency == currency
  }

  lemma ExpectedOverDates(posted: seq<PostedRow>, processorId: string, currency: string)
    ensures var expected := ExpectedSettlement(posted);
      Sum(PartyKeys(expected, processorId, currency), AmountAt(expected))
      == SumSeq(posted, ContributionOf(processorId, currency))
  {
    var expected := ExpectedSettlement(posted);
    var keys := PartyKeys(expected, processorId, currency);
    GroupsTotal(keys, posted, processorId, currency);
    SumCong(keys, AmountAt(expected), GroupTotal(posted));
  }

  /**
   Under the configured rules, for every processor and currency: the receivable balance of the ledger, the
   sum of captured - refunded - charged back over payment states, and the expected settlement summed over
   all dates are one and the same amount, and it is never negative.
   */
  lemma ThreeWayAgreement(accepted: Accepted, processorId: string, currency: string)
    requires Keyed(accepted)
    ensures var t := Project(accepted, CONFIGURED_RULES);
      var expected := ExpectedSettlement(t.posted);
      var owed := SumSeq(t.states, NetOf(processorId, currency));
      && SumSeq(t.ledger, ReceivableOf(processorId, currency)) == owed
      && Sum(PartyKeys(expected, processorId, currency), AmountAt(expected)) == owed
      && owed >= 0
  {
    hide ExpectedSettlement, ProjectFirst;
    PrefixMoney(accepted, TransactionIds(accepted), processorId, currency);
    ExpectedOverDates(Project(accepted, CONFIGURED_RULES).posted, processorId, currency);
  }

  // ---- per transaction ----

  lemma {:induction false} PrefixReceivable(accepted: Accepted, ids: seq<string>, transactionId: string)
    requires Keyed(accepted)
    ensures var t := ProjectFirst(accepted, ids, CONFIGURED_RULES);
      SumSeq(t.ledger, ReceivableIn(transactionId)) == SumSeq(t.states, NetIn(transactionId))
  {
    hide TransactionTables, Rows;
    if ids != [] {
      var front, id := ids[..|ids| - 1], ids[|ids| - 1];
      PrefixReceivable(accepted, front, transactionId);
      var rows := Rows(accepted, id);
      TransactionReceivable(accepted, id, transactionId);
      var before, added := ProjectFirst(accepted, front, CONFIGURED_RULES), TransactionTables(rows, CONFIGURED_RULES);
      SumSeqConcat(before.ledger, added.ledger, ReceivableIn(transactionId));
      SumSeqConcat(before.states, added.states, NetIn(transactionId));
    }
  }

  lemma TransactionReceivable(accepted: Accepted, id: string, transactionId: string)
    requires Keyed(accepted)
    ensures var t := TransactionTables(Rows(accepted, id), CONFIGURED_RULES);
      SumSeq(t.ledger, ReceivableIn(transactionId)) == SumSeq(t.states, NetIn(transactionId))
  {
    hide PostedTables, LinesOf, Rows, TransactionTables, ReceivablePart, Assess, StateOf, IsLine, IsState, IsPosted, IsException;
    var rows := Rows(accepted, id);
    var t := TransactionTables(rows, CONFIGURED_RULES);
    TransactionRows(accepted, id, CONFIGURED_RULES);
    if id != transactionId {
      SumSeqZero(t.ledger, ReceivableIn(transactionId));
      SumSeqZero(t.states, NetIn(transactionId));
    } else {
      SumSeqCong(t.ledger, ReceivableIn(transactionId), ReceivablePart);
      if rows != [] && Assess(rows).None? {
        ValidMoney(rows);
        ValidTables(rows, CONFIGURED_RULES);
        StateTransaction(accepted, id);
        SumSeqSingle(StateOf(rows), NetIn(transactionId));
      } else {
        InvalidTables(rows, CONFIGURED_RULES);
      }
    }
  }

  lemma InvalidTables(rows: seq<PaymentEvent>, rules: PostingRules)
    requires rows == [] || Assess(rows).Some?
    ensures TransactionTables(rows, rules).ledger == [] && TransactionTables(rows, rules).states == []
  {
  }

  /** Each transaction's receivable balance in the ledger is its state's captured - refunded - charged back. */
  lemma ReceivableIsNet(accepted: Accepted, transactionId: string)
    requires Keyed(accepted)
    ensures var t := Project(accepted, CONFIGURED_RULES);
      && SumSeq(t.ledger, ReceivableIn(transactionId)) == SumSeq(t.states, NetIn(transactionId))
      && (Valid(accepted, transactionId) ==>
            SumSeq(t.ledger, ReceivableIn(transactionId)) == Net(StateOf(Rows(accepted, transactionId))))
  {
    hide TransactionTables;
    var ids := TransactionIds(accepted);
    PrefixReceivable(accepted, ids, transactionId);
    if Valid(accepted, transactionId) {
      RowsNonEmpty(accepted, transactionId);
      OneNet(accepted, ids, transactionId);
    }
  }

  /** The state table holds exactly one row of a valid transaction. */
  lemma {:induction false} OneNet(accepted: Accepted, ids: seq<string>, transactionId: string)
    requires Keyed(accepted) && Distinct(ids) && Valid(accepted, transactionId)
    ensures SumSeq(ProjectFirst(accepted, ids, CONFIGURED_RULES).states, NetIn(transactionId))
         == if transactionId in ids then Net(StateOf(Rows(accepted, transactionId))) else 0
  {
    hide PostedTables, Assess, StateOf, Rows, LinesOf;
    if ids != [] {
      var front, id := ids[..|ids| - 1], ids[|ids| - 1];
      assert ids == front + [id];
      OneNet(accepted, front, transactionId);
      var rows := Rows(accepted, id);
      var added := TransactionTables(rows, CONFIGURED_RULES).states;
      SumSeqConcat(ProjectFirst(accepted, front, CONFIGURED_RULES).states, added, NetIn(transactionId));
      TransactionRows(accepted, id, CONFIGURED_RULES);
      if id == transactionId {
        PostedTablesRows(rows, CONFIGURED_RULES);
        StateTransaction(accepted, id);
        assert added == [StateOf(rows)];
        SumSeqSingle(StateOf(rows), NetIn(transactionId));
      } else {
        SumSeqZero(added, NetIn(transactionId));
      }
    }
  }
}
