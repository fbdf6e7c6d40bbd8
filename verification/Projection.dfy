/**
 The specification of the rebuild: every projection table as a pure function of the accepted history,
 in insertion order, with what each row means and the keys that never collide.
 */
module Projection {
  import opened Wrappers
  import opened Sums
  import opened Contracts
  import opened Ledger
  import opened Lifecycle
  import opened History

  datatype ExceptionRow = ExceptionRow(eventId: string, transactionId: string, violation: Violation)

  datatype PostedRow = PostedRow(
    eventId: string,
    transactionId: string,
    processorId: string,
    merchantId: string,
    eventType: EventType,
    amountMinor: int,
    currency: string,
    eventTime: string
  )

  /** The four projection tables, rows in insertion order. */
  datatype Tables = Tables(
    exceptions: seq<ExceptionRow>,
    posted: seq<PostedRow>,
    ledger: seq<PostingLine>,
    states: seq<PaymentState>
  )

  const EMPTY_TABLES := Tables([], [], [], [])

  function Append(a: Tables, b: Tables): Tables {
    Tables(a.exceptions + b.exceptions, a.posted + b.posted, a.ledger + b.ledger, a.states + b.states)
  }

  function PostedOf(e: PaymentEvent): PostedRow {
    PostedRow(e.eventId, e.transactionId, e.processorId, e.merchantId, e.eventType, e.amountMinor,
              e.currency, e.eventTime)
  }

  /** What one valid event adds: nothing when its rule has no lines. */
  function EventTables(e: PaymentEvent, rules: PostingRules): Tables {
    var lines := LinesOf(e, rules);
    Tables([], if lines == [] then [] else [PostedOf(e)], lines, [])
  }

  function PostedTables(events: seq<PaymentEvent>, rules: PostingRules): Tables {
    if events == [] then EMPTY_TABLES
    else
      var last := |events| - 1;
      Append(PostedTables(events[..last], rules), EventTables(events[last], rules))
  }

  function Rejected(events: seq<PaymentEvent>, violation: Violation): seq<ExceptionRow> {
    seq(|events|, i requires 0 <= i < |events| =>
      ExceptionRow(events[i].eventId, events[i].transactionId, violation))
  }

  /** One transaction is projected as a unit: all exceptions, or all postings and one state. */
  function TransactionTables(rows: seq<PaymentEvent>, rules: PostingRules): Tables {
    if rows == [] then EMPTY_TABLES
    else
      match Assess(rows)
      case Some(violation) => Tables(Rejected(rows, violation), [], [], [])
      case None => Append(PostedTables(rows, rules), Tables([], [], [], [StateOf(rows)]))
  }

  function ProjectFirst(accepted: Accepted, ids: seq<string>, rules: PostingRules): Tables
    requires Keyed(accepted)
  {
    if ids == [] then EMPTY_TABLES
    else
      var last := |ids| - 1;
      Append(ProjectFirst(accepted, ids[..last], rules), TransactionTables(Rows(accepted, ids[last]), rules))
  }

  /** The whole projection of an accepted history. */
  function Project(accepted: Accepted, rules: PostingRules): Tables
    requires Keyed(accepted)
  {
    ProjectFirst(accepted, TransactionIds(accepted), rules)
  }

  // ---- independence from provenance ----

  lemma {:induction false} PostedIgnoreProvenance(a: seq<PaymentEvent>, b: seq<PaymentEvent>, rules: PostingRules)
    requires Stripped(a) == Stripped(b)
    ensures PostedTables(a, rules) == PostedTables(b, rules)
  {
    if a != [] {
      var last := |a| - 1;
      assert Stripped(a[..last]) == Stripped(a)[..last] && Stripped(b[..last]) == Stripped(b)[..last];
      PostedIgnoreProvenance(a[..last], b[..last], rules);
      assert Stripped(a)[last] == Projected(a[last]) && Stripped(b)[last] == Projected(b[last]);
      EventIgnoresProvenance(a[last], b[last], rules);
    }
  }

  lemma EventIgnoresProvenance(e: PaymentEvent, f: PaymentEvent, rules: PostingRules)
    requires Projected(e) == Projected(f)
    ensures EventTables(e, rules) == EventTables(f, rules)
  {
    assert LinesOf(Projected(e), rules) == LinesOf(e, rules) && PostedOf(Projected(e)) == PostedOf(e);
    assert LinesOf(Projected(f), rules) == LinesOf(f, rules) && PostedOf(Projected(f)) == PostedOf(f);
  }

  lemma TransactionIgnoresProvenance(a: seq<PaymentEvent>, b: seq<PaymentEvent>, rules: PostingRules)
    requires Stripped(a) == Stripped(b)
    ensures TransactionTables(a, rules) == TransactionTables(b, rules)
  {
    hide Assess, StateOf, PostedTables;
    StrippedAlike(a, b);
    if a != [] {
      AssessReadsColumns(a, b);
      StateReadsColumns(a, b);
      PostedIgnoreProvenance(a, b, rules);
      if Assess(a).Some? {
        assert Rejected(a, Assess(a).value) == Rejected(b, Assess(a).value);
      }
    }
  }

  lemma {:induction false} ProjectFirstIgnoresProvenance(a: Accepted, b: Accepted, ids: seq<string>, rules: PostingRules)
    requires Keyed(a) && Keyed(b) && SameProjected(a, b)
    ensures ProjectFirst(a, ids, rules) == ProjectFirst(b, ids, rules)
  {
    hide TransactionTables, Rows;
    if ids != [] {
      var last := |ids| - 1;
      ProjectFirstIgnoresProvenance(a, b, ids[..last], rules);
      RowsIgnoreProvenance(a, b, ids[last]);
      TransactionIgnoresProvenance(Rows(a, ids[last]), Rows(b, ids[last]), rules);
    }
  }

  /** Histories that differ only in delivery times, sources and customer tokens have identical projections. */
  lemma ProjectionIgnoresProvenance(a: Accepted, b: Accepted, rules: PostingRules)
    requires Keyed(a) && Keyed(b) && SameProjected(a, b)
    ensures Project(a, rules) == Project(b, rules)
  {
    TransactionsIgnoreProvenance(a, b);
    ProjectFirstIgnoresProvenance(a, b, TransactionIds(a), rules);
  }

  // ---- what each projected row means ----

  ghost predicate Valid(accepted: Accepted, transactionId: string)
    requires Keyed(accepted)
  {
    var rows := Rows(accepted, transactionId);
    rows != [] && Assess(rows).None?
  }

  ghost predicate IsException(accepted: Accepted, r: ExceptionRow)
    requires Keyed(accepted)
  {
    && r.eventId in accepted && accepted[r.eventId].transactionId == r.transactionId
    && Rows(accepted, r.transactionId) != []
    && Assess(Rows(accepted, r.transactionId)) == Some(r.violation)
  }

  /** The row repeats the event's business columns. */
  ghost predicate Copies(r: PostedRow, e: PaymentEvent) {
    && r.eventId == e.eventId && r.transactionId == e.transactionId
    && r.processorId == e.processorId && r.merchantId == e.merchantId
    && r.eventType == e.eventType && r.amountMinor == e.amountMinor
    && r.currency == e.currency && r.eventTime == e.eventTime
  }

  ghost predicate IsPosted(accepted: Accepted, rules: PostingRules, r: PostedRow)
    requires Keyed(accepted)
  {
    && r.eventId in accepted && Copies(r, accepted[r.eventId])
    && Valid(accepted, r.transactionId)
    && LinesOf(accepted[r.eventId], rules) != []
  }

  ghost predicate IsLine(accepted: Accepted, rules: PostingRules, line: PostingLine)
    requires Keyed(accepted)
  {
    && line.eventId in accepted && line.transactionId == accepted[line.eventId].transactionId
    && Valid(accepted, line.transactionId)
    && line in LinesOf(accepted[line.eventId], rules)
  }

  ghost predicate IsState(accepted: Accepted, r: PaymentState)
    requires Keyed(accepted)
  {
    Valid(accepted, r.transactionId) && r == StateOf(Rows(accepted, r.transactionId))
  }

  lemma {:induction false} PostedTablesRows(events: seq<PaymentEvent>, rules: PostingRules)
    ensures PostedTables(events, rules).exceptions == [] && PostedTables(events, rules).states == []
    ensures forall r :: r in PostedTables(events, rules).posted
                   <==> exists e :: e in events && r == PostedOf(e) && LinesOf(e, rules) != []
    ensures forall line :: line in PostedTables(events, rules).ledger
                   <==> exists e :: e in events && line in LinesOf(e, rules)
  {
    if events != [] {
      var front, e := events[..|events| - 1], events[|events| - 1];
      assert events == front + [e];
      PostedTablesRows(front, rules);
      var t, before := PostedTables(events, rules), PostedTables(front, rules);
      forall r ensures r in t.posted <==> exists x :: x in events && r == PostedOf(x) && LinesOf(x, rules) != [] {
        assert r in t.posted <==> r in before.posted || (LinesOf(e, rules) != [] && r == PostedOf(e));
        assert forall x :: x in events <==> x in front || x == e;
      }
      forall line ensures line in t.ledger <==> exists x :: x in events && line in LinesOf(x, rules) {
        assert line in t.ledger <==> line in before.ledger || line in LinesOf(e, rules);
        assert forall x :: x in events <==> x in front || x == e;
      }
    }
  }

  lemma SingleRow(e: PaymentEvent)
    ensures Keyed(map[e.eventId := e])
    ensures Rows(map[e.eventId := e], e.transactionId) == [e]
    ensures EventsOf(map[e.eventId := e], e.transactionId) == {e}
  {
    var accepted := map[e.eventId := e];
    var rows := Rows(accepted, e.transactionId);
    assert accepted[e.eventId] == e;
    assert EventsOf(accepted, e.transactionId) == {e};
    ListingLength(rows, {e});
    assert rows[0] in rows;
  }

  lemma LoneAuthorizationIsValid(e: PaymentEvent)
    requires WellFormed(e) && e.eventType == Authorization && e.transactionVersion == 1
    ensures Keyed(map[e.eventId := e]) && Valid(map[e.eventId := e], e.transactionId)
  {
    hide IsIdentifier;
    SingleRow(e);
    TotalsAreParts([e]);
    SumSeqSingle(e, CapturedPart);
    SumSeqSingle(e, RefundedPart);
    SumSeqSingle(e, ChargebackPart);
    ShapeIsAccepted([e]);
  }

  lemma StateTransaction(accepted: Accepted, transactionId: string)
    requires Keyed(accepted) && Rows(accepted, transactionId) != []
    ensures StateOf(Rows(accepted, transactionId)).transactionId == transactionId
  {
    var rows := Rows(accepted, transactionId);
    RowsAreEvents(accepted, transactionId, rows[|rows| - 1]);
  }

  /** The state row of a valid transaction counts its events. */
  lemma StateVersion(accepted: Accepted, t: string)
    requires Keyed(accepted) && Valid(accepted, t)
    ensures StateOf(Rows(accepted, t)).currentVersion == |EventsOf(accepted, t)|
    ensures StateOf(Rows(accepted, t)).transactionId == t
  {
    hide Assess;
    AcceptedHasShape(Rows(accepted, t));
    ListingLength(Rows(accepted, t), EventsOf(accepted, t));
    StateTransaction(accepted, t);
  }

  lemma RejectedRows(accepted: Accepted, transactionId: string, r: ExceptionRow)
    requires Keyed(accepted) && Rows(accepted, transactionId) != []
    requires Assess(Rows(accepted, transactionId)).Some?
    ensures r in Rejected(Rows(accepted, transactionId), Assess(Rows(accepted, transactionId)).value)
       <==> r.transactionId == transactionId && IsException(accepted, r)
  {
    var rows := Rows(accepted, transactionId);
    var violation := Assess(rows).value;
    if r in Rejected(rows, violation) {
      var i :| 0 <= i < |rows| && r == Rejected(rows, violation)[i];
      RowsAreEvents(accepted, transactionId, rows[i]);
    }
    if r.transactionId == transactionId && IsException(accepted, r) {
      var e := accepted[r.eventId];
      RowsAreEvents(accepted, transactionId, e);
      var i :| 0 <= i < |rows| && rows[i] == e;
      assert Rejected(rows, violation)[i] == r;
    }
  }

  /** Every row of one transaction's tables, characterised. */
  lemma TransactionRows(accepted: Accepted, transactionId: string, rules: PostingRules)
    requires Keyed(accepted)
    ensures RowsMean(accepted, transactionId, rules, TransactionTables(Rows(accepted, transactionId), rules))
  {
    hide Assess, StateOf, PostedTables, Rejected, LinesOf, EventLe, EventsOf, Rows;
    if Rows(accepted, transactionId) != [] {
      if Assess(Rows(accepted, transactionId)).Some? {
        InvalidRows(accepted, transactionId, rules);
      } else {
        ValidRows(accepted, transactionId, rules);
      }
    }
  }

  ghost predicate RowsMean(accepted: Accepted, transactionId: string, rules: PostingRules, t: Tables)
    requires Keyed(accepted)
  {
    && (forall r :: r in t.exceptions <==> r.transactionId == transactionId && IsException(accepted, r))
    && (forall r :: r in t.posted <==> r.transactionId == transactionId && IsPosted(accepted, rules, r))
    && (forall l :: l in t.ledger <==> l.transactionId == transactionId && IsLine(accepted, rules, l))
    && (forall r :: r in t.states <==> r.transactionId == transactionId && IsState(accepted, r))
  }

  lemma InvalidRows(accepted: Accepted, transactionId: string, rules: PostingRules)
    requires Keyed(accepted) && Rows(accepted, transactionId) != []
    requires Assess(Rows(accepted, transactionId)).Some?
    ensures RowsMean(accepted, transactionId, rules, TransactionTables(Rows(accepted, transactionId), rules))
  {
    hide Assess, StateOf, PostedTables, Rejected, LinesOf, EventLe, EventsOf, Rows;
    forall r { RejectedRows(accepted, transactionId, r); }
  }

  lemma ValidRows(accepted: Accepted, transactionId: string, rules: PostingRules)
    requires Keyed(accepted) && Valid(accepted, transactionId)
    ensures RowsMean(accepted, transactionId, rules, TransactionTables(Rows(accepted, transactionId), rules))
  {
    hide Assess, StateOf, PostedTables, Rejected, LinesOf, EventLe, EventsOf, Rows;
    StateTransaction(accepted, transactionId);
    forall r { PostedRowMeaning(accepted, transactionId, rules, r); }
    forall l { LineMeaning(accepted, transactionId, rules, l); }
    PostedTablesRows(Rows(accepted, transactionId), rules);
  }

  lemma PostedRowMeaning(accepted: Accepted, transactionId: string, rules: PostingRules, r: PostedRow)
    requires Keyed(accepted) && Valid(accepted, transactionId)
    ensures r in PostedTables(Rows(accepted, transactionId), rules).posted
       <==> r.transactionId == transactionId && IsPosted(accepted, rules, r)
  {
    hide LinesOf, Assess, PostedTables, EventsOf, EventLe;
    var rows := Rows(accepted, transactionId);
    PostedTablesRows(rows, rules);
    if r in PostedTables(rows, rules).posted {
      var e :| e in rows && r == PostedOf(e) && LinesOf(e, rules) != [];
      RowsAreEvents(accepted, transactionId, e);
    }
    if r.transactionId == transactionId && IsPosted(accepted, rules, r) {
      RowsAreEvents(accepted, transactionId, accepted[r.eventId]);
    }
  }

  lemma LineMeaning(accepted: Accepted, transactionId: string, rules: PostingRules, l: PostingLine)
    requires Keyed(accepted) && Valid(accepted, transactionId)
    ensures l in PostedTables(Rows(accepted, transactionId), rules).ledger
       <==> l.transactionId == transactionId && IsLine(accepted, rules, l)
  {
    hide LinesOf, Assess, PostedTables, EventsOf, EventLe;
    var rows := Rows(accepted, transactionId);
    PostedTablesRows(rows, rules);
    if l in PostedTables(rows, rules).ledger {
      var e :| e in rows && l in LinesOf(e, rules);
      RowsAreEvents(accepted, transactionId, e);
      LineNamesEvent(e, rules, l);
    }
    if l.transactionId == transactionId && IsLine(accepted, rules, l) {
      RowsAreEvents(accepted, transactionId, accepted[l.eventId]);
    }
  }

  lemma {:induction false} ProjectFirstRows(accepted: Accepted, ids: seq<string>, rules: PostingRules)
    requires Keyed(accepted)
    ensures var t := ProjectFirst(accepted, ids, rules);
      && (forall r :: r in t.exceptions <==> r.transactionId in ids && IsException(accepted, r))
      && (forall r :: r in t.posted <==> r.transactionId in ids && IsPosted(accepted, rules, r))
      && (forall l :: l in t.ledger <==> l.transactionId in ids && IsLine(accepted, rules, l))
      && (forall r :: r in t.states <==> r.transactionId in ids && IsState(accepted, r))
  {
    if ids != [] {
      var front, id := ids[..|ids| - 1], ids[|ids| - 1];
      assert ids == front + [id];
      ProjectFirstRows(accepted, front, rules);
      TransactionRows(accepted, id, rules);
    }
  }

  /** The projection contains exactly the rows that the accepted history calls for. */
  lemma ProjectionIsExact(accepted: Accepted, rules: PostingRules)
    requires Keyed(accepted)
    ensures forall r :: r in Project(accepted, rules).exceptions <==> IsException(accepted, r)
    ensures forall r :: r in Project(accepted, rules).posted <==> IsPosted(accepted, rules, r)
    ensures forall l :: l in Project(accepted, rules).ledger <==> IsLine(accepted, rules, l)
    ensures forall r :: r in Project(accepted, rules).states <==> IsState(accepted, r)
  {
    ProjectFirstRows(accepted, TransactionIds(accepted), rules);
    forall id ensures id in TransactionIds(accepted) <==> Rows(accepted, id) != [] {
      RowsNonEmpty(accepted, id);
    }
    forall r | IsException(accepted, r) ensures r.transactionId in TransactionIds(accepted) {}
  }

  /** A transaction is wholly excepted, or has exactly its one state: never both, never neither. */
  lemma ExceptedOrStated(accepted: Accepted, rules: PostingRules, transactionId: string)
    requires Keyed(accepted) && transactionId in TransactionSet(accepted)
    ensures var t := Project(accepted, rules);
      var excepted := exists r :: r in t.exceptions && r.transactionId == transactionId;
      var stated := exists r :: r in t.states && r.transactionId == transactionId;
      && excepted != stated
      && (excepted ==> forall e :: e in EventsOf(accepted, transactionId) ==>
            exists r :: r in t.exceptions && r.eventId == e.eventId)
      && (forall a, b :: a in t.states && b in t.states && a.transactionId == b.transactionId ==> a == b)
  {
    ProjectionIsExact(accepted, rules);
    RowsNonEmpty(accepted, transactionId);
    var t := Project(accepted, rules);
    var rows := Rows(accepted, transactionId);
    if Assess(rows).Some? {
      forall e | e in EventsOf(accepted, transactionId)
        ensures exists r :: r in t.exceptions && r.transactionId == transactionId && r.eventId == e.eventId
      {
        var id :| id in accepted && accepted[id] == e;
        assert IsException(accepted, ExceptionRow(e.eventId, transactionId, Assess(rows).value));
      }
      assert rows[0] in EventsOf(accepted, transactionId) by { assert rows[0] in rows; }
    } else {
      StateTransaction(accepted, transactionId);
      assert IsState(accepted, StateOf(rows));
    }
  }
}
