/**
 The two finance views over every reachable state of the incremental pipeline: what they show is what a
 full rebuild of the accepted history would show, and the daily ledger always balances.
 */
module FinanceView {
  import opened Sums
  import opened Contracts
  import opened Ledger
  import opened Lifecycle
  import opened History
  import opened Projection
  import opened MoneyLaws
  import opened Pipeline
  import opened PipelineLaws

  ghost predicate CarriedThrough(lake: Lake, t: string) {
    forall merge: Merge :: Carried(lake, t, merge)
  }

  function LinesOfTransaction(lake: Lake, t: string): set<PostingLine> {
    set l | l in VisibleLines(lake) && l.line.transactionId == t :: l.line
  }

  // ---- state rows ----

  lemma HiddenWhenInvalid(lake: Lake, t: string)
    requires Invariant(lake) && Carried(lake, t, ExceptionMerge)
    ensures HistoryInvalid(lake.accepted, t) ==> Excepted(lake, t)
  {
    hide StatesRight, PostedRight, LedgerRight, Paired, JustifiedLine, Carried, Assess;
    FromInvariant(lake, t);
    if HistoryInvalid(lake.accepted, t) {
      var e := Rows(lake.accepted, t)[0];
      RowsAreEvents(lake.accepted, t, e);
      assert e in EventsOf(lake.accepted, t);
      assert lake.exceptions[e.eventId].event.transactionId == t;
    }
  }

  lemma ShownState(lake: Lake, t: string)
    requires Invariant(lake) && CarriedThrough(lake, t) && t in TransactionSet(lake.accepted)
    ensures t in DimPaymentCurrent(lake) <==> Projection.Valid(lake.accepted, t) && !Excepted(lake, t)
    ensures t in DimPaymentCurrent(lake) ==>
              DimPaymentCurrent(lake)[t].state == StateOf(Rows(lake.accepted, t))
  {
    hide PostedRight, LedgerRight, Paired, JustifiedLine, Carried, Assess, Rows, StateOf, Excepted;
    FromInvariant(lake, t);
    assert Carried(lake, t, StateMerge) && Carried(lake, t, ExceptionMerge);
    HiddenWhenInvalid(lake, t);
    RowsNonEmpty(lake.accepted, t);
  }

  // ---- ledger lines ----

  /** Every visible line of a transaction is a line its events call for, and conversely. */
  lemma ShownLine(lake: Lake, t: string, line: PostingLine)
    requires Invariant(lake) && CarriedThrough(lake, t)
    requires Projection.Valid(lake.accepted, t) && !Excepted(lake, t)
    ensures line in LinesOfTransaction(lake, t)
       <==> line.transactionId == t && IsLine(lake.accepted, CONFIGURED_RULES, line)
  {
    hide StatesRight, ExceptionsRight, PostedRight, Paired, Carried, Assess, Rows, Excepted, DebitLine, CreditLine;
    FromInvariant(lake, t);
    if line in LinesOfTransaction(lake, t) {
      LineIsJustified(lake, t, line);
    }
    if line.transactionId == t && IsLine(lake.accepted, CONFIGURED_RULES, line) {
      LineIsMerged(lake, t, line);
    }
  }

  lemma LineIsJustified(lake: Lake, t: string, line: PostingLine)
    requires EventsSound(lake.accepted) && NothingForeign(lake)
    requires line in LinesOfTransaction(lake, t)
    requires Projection.Valid(lake.accepted, t)
    ensures line.transactionId == t && IsLine(lake.accepted, CONFIGURED_RULES, line)
  {
    hide Assess, Rows, Excepted;
    var l :| l in VisibleLines(lake) && l.line == line;
    var k :| k in lake.ledger && lake.ledger[k] == l;
    assert JustifiedLine(lake, k);
    LinesAgree(lake.accepted[line.eventId]);
  }

  lemma LineIsMerged(lake: Lake, t: string, line: PostingLine)
    requires EventsSound(lake.accepted) && NothingForeign(lake)
    requires forall e :: LedgerRight(lake, e)
    requires CarriedThrough(lake, t) && !Excepted(lake, t)
    requires line.transactionId == t && IsLine(lake.accepted, CONFIGURED_RULES, line)
    ensures line in LinesOfTransaction(lake, t)
  {
    hide Assess, Rows, Carried, NothingForeign, Excepted;
    var e := lake.accepted[line.eventId];
    LinesAgree(e);
    assert LedgerRight(lake, e);
    assert Carried(lake, t, LedgerMerge);
    var l := if line == DebitLine(e).line then DebitLine(e) else CreditLine(e);
    StoredLine(lake, e, 1);
    StoredLine(lake, e, 2);
    assert lake.ledger[line.entryId].line == line;
    assert lake.ledger[line.entryId] in VisibleLines(lake);
  }

  /** A stored line under an event's entry id is that event's line. */
  lemma StoredLine(lake: Lake, e: PaymentEvent, position: nat)
    requires EventsSound(lake.accepted) && NothingForeign(lake)
    requires e.eventId in lake.accepted && lake.accepted[e.eventId] == e
    requires position == 1 || position == 2
    ensures EntryId(e.eventId, position) in lake.ledger ==>
              lake.ledger[EntryId(e.eventId, position)] == (if position == 1 then DebitLine(e) else CreditLine(e))
  {
    var k := EntryId(e.eventId, position);
    if k in lake.ledger {
      assert JustifiedLine(lake, k);
      var owner := lake.accepted[lake.ledger[k].line.eventId];
      EntryIdInjective(e.eventId, position, owner.eventId, 1);
      EntryIdInjective(e.eventId, position, owner.eventId, 2);
    }
  }

  // ---- money ----

  lemma {:induction false} LinesDistinct(events: seq<PaymentEvent>, rules: PostingRules)
    requires forall i, j :: 0 <= i < j < |events| ==> events[i].eventId != events[j].eventId
    ensures Distinct(PostedTables(events, rules).ledger)
  {
    hide LinesOf;
    if events != [] {
      var front, e := events[..|events| - 1], events[|events| - 1];
      LinesDistinct(front, rules);
      OwnLinesDistinct(e, rules);
      var before, own := PostedTables(front, rules).ledger, LinesOf(e, rules);
      forall l | l in before ensures l.eventId != e.eventId {
        EarlierLine(front, rules, l);
      }
      JoinDistinct(before, own);
    }
  }

  lemma EarlierLine(events: seq<PaymentEvent>, rules: PostingRules, l: PostingLine)
    requires l in PostedTables(events, rules).ledger
    ensures exists i :: 0 <= i < |events| && events[i].eventId == l.eventId
  {
    PostedTablesRows(events, rules);
    var e :| e in events && l in LinesOf(e, rules);
    var i :| 0 <= i < |events| && events[i] == e;
  }

  lemma OwnLinesDistinct(e: PaymentEvent, rules: PostingRules)
    ensures Distinct(LinesOf(e, rules))
    ensures forall l :: l in LinesOf(e, rules) ==> l.eventId == e.eventId
  {
    var lines := LinesOf(e, rules);
    forall i, j | 0 <= i < j < |lines| ensures lines[i] != lines[j] {
      EntryIdInjective(e.eventId, i + 1, e.eventId, j + 1);
    }
  }

  lemma JoinDistinct<T(!new)>(a: seq<T>, b: seq<T>)
    requires Distinct(a) && Distinct(b) && forall x :: x in a ==> x !in b
    ensures Distinct(a + b)
  {
    forall i, j | 0 <= i < j < |a + b| ensures (a + b)[i] != (a + b)[j] {
      if i < |a| && j >= |a| {
        assert a[i] in a && b[j - |a|] in b;
      }
    }
  }

  /** The view's net column is the receivable balance of the transaction's visible ledger lines. */
  lemma NetIsLedgerBalance(lake: Lake, t: string)
    requires Invariant(lake) && CarriedThrough(lake, t) && t in TransactionSet(lake.accepted)
    requires t in DimPaymentCurrent(lake)
    ensures DimPaymentCurrent(lake)[t].netProcessorReceivable
         == Sum(LinesOfTransaction(lake, t), ReceivablePart)
  {
    hide Assess, Rows, Carried, Excepted, StateOf, LinesOf, PostedTables, Invariant, IsLine, LinesOfTransaction;
    FromInvariant(lake, t);
    ShownState(lake, t);
    var rows := Rows(lake.accepted, t);
    var ledger := PostedTables(rows, CONFIGURED_RULES).ledger;
    DistinctIds(lake.accepted, t);
    LinesDistinct(rows, CONFIGURED_RULES);
    forall l ensures l in ledger <==> l in LinesOfTransaction(lake, t) {
      LineMeaning(lake.accepted, t, CONFIGURED_RULES, l);
      ShownLine(lake, t, l);
    }
    ListingSum(ledger, LinesOfTransaction(lake, t), ReceivablePart);
    ValidMoney(rows);
  }

  lemma DistinctIds(accepted: Accepted, t: string)
    requires Keyed(accepted)
    ensures forall i, j :: 0 <= i < j < |Rows(accepted, t)| ==>
              Rows(accepted, t)[i].eventId != Rows(accepted, t)[j].eventId
  {
    var rows := Rows(accepted, t);
    forall i, j | 0 <= i < j < |rows| ensures rows[i].eventId != rows[j].eventId {
      RowsAreEvents(accepted, t, rows[i]);
      RowsAreEvents(accepted, t, rows[j]);
    }
  }

  // ---- main result ----

  /**
   The view shows the transaction exactly if the full rebuild states it and no exception merge ever found it
   invalid; what it shows are the full rebuild's state row and ledger lines.
   */
  ghost predicate ShowsRebuild(dateOf: Dating, steps: seq<Step>, t: string)
    requires Keyed(After(dateOf, steps).accepted)
  {
    var lake := After(dateOf, steps);
    var rebuilt := Project(lake.accepted, CONFIGURED_RULES);
    && (t in DimPaymentCurrent(lake) <==>
          && (exists s :: s in rebuilt.states && s.transactionId == t)
          && forall k: nat :: !ExceptsAt(dateOf, steps, k, t))
    && (t in DimPaymentCurrent(lake) ==>
          && DimPaymentCurrent(lake)[t].state in rebuilt.states
          && DimPaymentCurrent(lake)[t].state.transactionId == t
          && DimPaymentCurrent(lake)[t].netProcessorReceivable == Sum(LinesOfTransaction(lake, t), ReceivablePart)
          && forall line :: line in LinesOfTransaction(lake, t) <==> line in rebuilt.ledger && line.transactionId == t)
  }

  /** Incremental refines full rebuild: once every merge has read a transaction's events, it is shown so. */
  lemma IncrementalRefinesRebuild(dateOf: Dating, steps: seq<Step>, t: string)
    requires t in TransactionSet(After(dateOf, steps).accepted)
    requires CarriedThrough(After(dateOf, steps), t)
    ensures Keyed(After(dateOf, steps).accepted) && ShowsRebuild(dateOf, steps, t)
  {
    hide Invariant, Assess, Rows, Carried, StateOf, LinesOf, After, DimPaymentCurrent, LinesOfTransaction, CarriedThrough;
    hide Excepted, ExceptsAt, Project;
    var lake := After(dateOf, steps);
    AlwaysInvariant(dateOf, steps);
    FromInvariant(lake, t);
    ShownState(lake, t);
    ProjectionIsExact(lake.accepted, CONFIGURED_RULES);
    ExceptedExactly(dateOf, steps, t);
    if Projection.Valid(lake.accepted, t) {
      StateTransaction(lake.accepted, t);
      assert IsState(lake.accepted, StateOf(Rows(lake.accepted, t)));
    }
    if t in DimPaymentCurrent(lake) {
      NetIsLedgerBalance(lake, t);
      forall line { ShownLine(lake, t, line); }
    }
  }

  // ---- the daily ledger ----

  function DebitsOf(events: set<PaymentEvent>): set<TimedLine> { set e | e in events :: DebitLine(e) }

  function CreditsOf(events: set<PaymentEvent>): set<TimedLine> { set e | e in events :: CreditLine(e) }

  lemma {:induction false} PairsCancel(events: set<PaymentEvent>)
    requires UniqueIds(events)
    ensures Sum(DebitsOf(events) + CreditsOf(events), TimedSigned) == 0
  {
    if events != {} {
      var e :| e in events;
      var rest := events - {e};
      PairsCancel(rest);
      FreshPair(rest, e);
      assert DebitsOf(events) == DebitsOf(rest) + {DebitLine(e)};
      assert CreditsOf(events) == CreditsOf(rest) + {CreditLine(e)};
      var lines := DebitsOf(rest) + CreditsOf(rest);
      SumInsert(lines, TimedSigned, DebitLine(e));
      SumInsert(lines + {DebitLine(e)}, TimedSigned, CreditLine(e));
      assert DebitsOf(events) + CreditsOf(events) == lines + {DebitLine(e)} + {CreditLine(e)};
    }
  }

  lemma FreshPair(rest: set<PaymentEvent>, e: PaymentEvent)
    requires UniqueIds(rest + {e}) && e !in rest
    ensures DebitLine(e) !in DebitsOf(rest) + CreditsOf(rest)
    ensures CreditLine(e) !in DebitsOf(rest) + CreditsOf(rest) + {DebitLine(e)}
  {
    EntryIdInjective(e.eventId, 1, e.eventId, 2);
    forall other | other in rest
      ensures DebitLine(other).line.eventId != e.eventId && CreditLine(other).line.eventId != e.eventId
    {
      assert other.eventId != e.eventId;
    }
  }

  function GroupEvents(dateOf: string -> string, lake: Lake, key: DailyKey): set<PaymentEvent> {
    set l | l in DailyGroup(dateOf, lake, key) && l.line.eventId in lake.accepted :: lake.accepted[l.line.eventId]
  }

  /** A visible group holds both lines of each of its events. */
  lemma GroupIsPairs(dateOf: string -> string, lake: Lake, key: DailyKey)
    requires Invariant(lake)
    ensures var events := GroupEvents(dateOf, lake, key);
      && DailyGroup(dateOf, lake, key) == DebitsOf(events) + CreditsOf(events)
      && UniqueIds(events)
  {
    hide Invariant, Excepted, StatesRight, ExceptionsRight, PostedRight, LedgerRight;
    FromInvariant(lake, "");
    var events := GroupEvents(dateOf, lake, key);
    forall l | l in DailyGroup(dateOf, lake, key) ensures l in DebitsOf(events) + CreditsOf(events) {
      var k :| k in lake.ledger && lake.ledger[k] == l;
      assert JustifiedLine(lake, k);
      assert lake.accepted[l.line.eventId] in events;
    }
    forall e | e in events
      ensures DebitLine(e) in DailyGroup(dateOf, lake, key) && CreditLine(e) in DailyGroup(dateOf, lake, key)
    {
      var l :| l in DailyGroup(dateOf, lake, key) && l.line.eventId in lake.accepted && lake.accepted[l.line.eventId] == e;
      BothSides(lake, dateOf, key, l, e);
    }
  }

  lemma BothSides(lake: Lake, dateOf: string -> string, key: DailyKey, l: TimedLine, e: PaymentEvent)
    requires EventsSound(lake.accepted) && NothingForeign(lake) && Paired(lake)
    requires l in DailyGroup(dateOf, lake, key)
    requires l.line.eventId in lake.accepted && lake.accepted[l.line.eventId] == e
    ensures DebitLine(e) in DailyGroup(dateOf, lake, key) && CreditLine(e) in DailyGroup(dateOf, lake, key)
  {
    hide Excepted;
    var k :| k in lake.ledger && lake.ledger[k] == l;
    assert JustifiedLine(lake, k);
    assert EntryId(e.eventId, 1) in lake.ledger && EntryId(e.eventId, 2) in lake.ledger;
    StoredLine(lake, e, 1);
    StoredLine(lake, e, 2);
    assert lake.ledger[EntryId(e.eventId, 1)] in VisibleLines(lake);
    assert lake.ledger[EntryId(e.eventId, 2)] in VisibleLines(lake);
  }

  lemma AccountsPartition(lines: set<TimedLine>)
    requires forall l :: l in lines ==> l.line.account in {PROCESSOR_RECEIVABLE, MERCHANT_PAYABLE, CHARGEBACK_LOSS}
    ensures Sum(lines, TimedSigned)
         == Sum(OnAccount(lines, PROCESSOR_RECEIVABLE), TimedSigned)
          + Sum(OnAccount(lines, MERCHANT_PAYABLE), TimedSigned)
          + Sum(OnAccount(lines, CHARGEBACK_LOSS), TimedSigned)
  {
    var a := OnAccount(lines, PROCESSOR_RECEIVABLE);
    var b := OnAccount(lines, MERCHANT_PAYABLE);
    var c := OnAccount(lines, CHARGEBACK_LOSS);
    assert PROCESSOR_RECEIVABLE[0] == 'p' && MERCHANT_PAYABLE[0] == 'm' && CHARGEBACK_LOSS[0] == 'c';
    SumUnion(a, b, TimedSigned);
    SumUnion(a + b, c, TimedSigned);
    assert a + b + c == lines;
  }

  /**
   In every reachable state, crashed and partial ones included, the accounts of the daily ledger cancel for
   each date, processor, merchant and currency.
   */
  lemma DailyLedgerBalances(dating: Dating, steps: seq<Step>, dateOf: string -> string, key: DailyKey)
    ensures var lake := After(dating, steps);
      FctLedgerDaily(dateOf, lake, key, PROCESSOR_RECEIVABLE).1
      + FctLedgerDaily(dateOf, lake, key, MERCHANT_PAYABLE).1
      + FctLedgerDaily(dateOf, lake, key, CHARGEBACK_LOSS).1 == 0
  {
    hide Invariant, After, VisibleLines;
    var lake := After(dating, steps);
    AlwaysInvariant(dating, steps);
    GroupIsPairs(dateOf, lake, key);
    PairsCancel(GroupEvents(dateOf, lake, key));
    AccountsPartition(DailyGroup(dateOf, lake, key));
  }
}
