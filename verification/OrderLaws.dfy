/**
 When arrival order matters to the projections.  First writer wins, so order decides which of several rival
 claims on one event id is accepted; this module says exactly when that choice shows in a projection table.
 */
module OrderLaws {
  import opened Wrappers
  import opened Sums
  import opened Ordering
  import opened Contracts
  import opened Ledger
  import opened Lifecycle
  import opened History
  import opened Projection
  import opened Intake
  import opened Runs
  import opened RunLaws

  /** The same rows in every projection table; each table has a key, so sets of rows are what matters. */
  ghost predicate SameContents(a: Tables, b: Tables) {
    && (forall r :: r in a.exceptions <==> r in b.exceptions)
    && (forall r :: r in a.posted <==> r in b.posted)
    && (forall l :: l in a.ledger <==> l in b.ledger)
    && (forall r :: r in a.states <==> r in b.states)
  }

  /** Equal in every column that the projection of a valid history shows: the event time only if it is posted. */
  ghost predicate ShowsSame(rules: PostingRules, e: PaymentEvent, f: PaymentEvent) {
    SameColumns(e, f) && (LinesOf(e, rules) != [] ==> e.eventTime == f.eventTime)
  }

  ghost predicate WellFormedHistory(accepted: Accepted) {
    Keyed(accepted) && forall id :: id in accepted ==> WellFormed(accepted[id])
  }

  /**
   Accepting f instead of the event under its id: the same transaction, the same verdict on it, and if that
   verdict is acceptance, the same visible columns.
   */
  ghost predicate SwapAgrees(rules: PostingRules, accepted: Accepted, f: PaymentEvent)
    requires WellFormedHistory(accepted) && WellFormed(f) && f.eventId in accepted
  {
    var e, swapped := accepted[f.eventId], accepted[f.eventId := f];
    && e.transactionId == f.transactionId
    && var was, now := Verdict(accepted, e.transactionId), Verdict(swapped, e.transactionId);
    && was == now
    && (was == Some(None) ==> ShowsSame(rules, e, f))
  }

  /** The lifecycle verdict on a transaction, if it has events: no violation, or the first one. */
  function Verdict(accepted: Accepted, t: string): Option<Option<Violation>>
    requires Keyed(accepted)
  {
    var rows := Rows(accepted, t);
    if rows == [] then None else Some(Assess(rows))
  }

  // ---- one swap ----

  lemma SwapKeeps(accepted: Accepted, f: PaymentEvent)
    requires WellFormedHistory(accepted) && WellFormed(f) && f.eventId in accepted
    ensures WellFormedHistory(accepted[f.eventId := f])
    ensures accepted[f.eventId := f][f.eventId := accepted[f.eventId]] == accepted
  {
    hide WellFormed;
  }

  lemma OtherTransactions(accepted: Accepted, f: PaymentEvent, t: string)
    requires WellFormedHistory(accepted) && WellFormed(f) && f.eventId in accepted
    requires t != f.transactionId && t != accepted[f.eventId].transactionId
    ensures Keyed(accepted[f.eventId := f])
    ensures EventsOf(accepted[f.eventId := f], t) == EventsOf(accepted, t)
    ensures Rows(accepted[f.eventId := f], t) == Rows(accepted, t)
  {
    hide WellFormed;
    SwapKeeps(accepted, f);
    var swapped := accepted[f.eventId := f];
    assert forall id :: id in accepted && id != f.eventId ==> swapped[id] == accepted[id];
    forall e ensures e in EventsOf(swapped, t) <==> e in EventsOf(accepted, t) {
      if e in EventsOf(swapped, t) {
        var id :| id in swapped && swapped[id] == e && e.transactionId == t;
        assert id != f.eventId;
      }
      if e in EventsOf(accepted, t) {
        var id :| id in accepted && accepted[id] == e && e.transactionId == t;
        assert id != f.eventId;
      }
    }
  }

  /** A row of the transaction and the row that stands in its place. */
  lemma Counterpart(accepted: Accepted, f: PaymentEvent, g: PaymentEvent) returns (h: PaymentEvent)
    requires WellFormedHistory(accepted) && WellFormed(f) && f.eventId in accepted
    requires SameColumns(accepted[f.eventId], f)
    requires g in Rows(accepted, f.transactionId)
    ensures Keyed(accepted[f.eventId := f])
    ensures h in Rows(accepted[f.eventId := f], f.transactionId) && SameColumns(g, h)
  {
    hide WellFormed, EventLe;
    SwapKeeps(accepted, f);
    RowsAreEvents(accepted, f.transactionId, g);
    h := if g.eventId == f.eventId then f else g;
    RowsAreEvents(accepted[f.eventId := f], f.transactionId, h);
  }

  function Core(e: PaymentEvent): PaymentEvent {
    Projected(e).(eventTime := "")
  }

  function Cores(rows: seq<PaymentEvent>): (r: seq<PaymentEvent>)
    ensures |r| == |rows| && forall i :: 0 <= i < |rows| ==> r[i] == Core(rows[i])
  {
    seq(|rows|, i requires 0 <= i < |rows| => Core(rows[i]))
  }

  predicate VersionLe(a: PaymentEvent, b: PaymentEvent) {
    a.transactionVersion <= b.transactionVersion
  }

  lemma CoresList(rows: seq<PaymentEvent>, all: set<PaymentEvent>)
    requires ByVersion(rows) && DistinctBy(rows, Version)
    requires all == CoreSet(rows)
    ensures Listing(Cores(rows), all) && Ascending(VersionLe, Cores(rows)) && TotalOn(VersionLe, all)
  {
    var r := Cores(rows);
    forall x ensures x in r <==> x in all {
      if x in r {
        var i :| 0 <= i < |r| && r[i] == x;
        assert rows[i] in rows;
      }
      if x in all {
        var g :| g in rows && Core(g) == x;
        var i :| 0 <= i < |rows| && rows[i] == g;
        assert r[i] == x;
      }
    }
    forall x, y | x in all && y in all && VersionLe(x, y) && VersionLe(y, x) ensures x == y {
      var i :| 0 <= i < |r| && r[i] == x;
      var j :| 0 <= j < |r| && r[j] == y;
      assert Version(rows[i]) == Version(rows[j]);
    }
  }

  /** Every row of one listing has a row with its columns in the other. */
  ghost predicate Covers(rows: seq<PaymentEvent>, others: seq<PaymentEvent>) {
    forall g :: g in rows ==> exists h :: h in others && SameColumns(g, h)
  }

  function CoreSet(rows: seq<PaymentEvent>): set<PaymentEvent> {
    set g | g in rows :: Core(g)
  }

  lemma CoreSubset(rows: seq<PaymentEvent>, others: seq<PaymentEvent>)
    requires Covers(rows, others)
    ensures CoreSet(rows) <= CoreSet(others)
  {
    forall g | g in rows ensures Core(g) in CoreSet(others) {
      var h :| h in others && SameColumns(g, h);
      assert Core(g) == Core(h);
    }
  }

  lemma SameCores(rows: seq<PaymentEvent>, others: seq<PaymentEvent>)
    requires Cores(rows) == Cores(others)
    ensures Alike(rows, others)
  {
    forall i | 0 <= i < |rows| ensures SameColumns(rows[i], others[i]) {
      assert Cores(rows)[i] == Cores(others)[i];
    }
  }

  /** Distinct versions order the rows: two such listings with the same columns are alike row by row. */
  lemma AlikeByVersion(rows: seq<PaymentEvent>, others: seq<PaymentEvent>)
    requires ByVersion(rows) && ByVersion(others) && DistinctBy(rows, Version) && DistinctBy(others, Version)
    requires Covers(rows, others) && Covers(others, rows)
    ensures Alike(rows, others)
  {
    hide Covers, ByVersion, DistinctBy, CoreSet, Alike, Cores;
    CoreSubset(rows, others);
    CoreSubset(others, rows);
    CoresList(rows, CoreSet(rows));
    CoresList(others, CoreSet(rows));
    AscendingUnique(VersionLe, Cores(rows), Cores(others), CoreSet(rows));
    SameCores(rows, others);
  }

  /** After a swap that keeps the columns, a transaction with distinct versions has the same rows, column by column. */
  lemma SwapAlike(accepted: Accepted, f: PaymentEvent)
    requires WellFormedHistory(accepted) && WellFormed(f) && f.eventId in accepted
    requires SameColumns(accepted[f.eventId], f)
    requires DistinctBy(Rows(accepted, f.transactionId), Version)
    ensures Keyed(accepted[f.eventId := f])
    ensures DistinctBy(Rows(accepted[f.eventId := f], f.transactionId), Version) ==>
              Alike(Rows(accepted, f.transactionId), Rows(accepted[f.eventId := f], f.transactionId))
  {
    hide WellFormed, SameColumns, DistinctBy, ByVersion;
    SwapKeeps(accepted, f);
    var swapped, t := accepted[f.eventId := f], f.transactionId;
    var rows, others := Rows(accepted, t), Rows(swapped, t);
    Reflected(accepted[f.eventId], f);
    assert Covers(rows, others) by {
      forall g | g in rows ensures exists h :: h in others && SameColumns(g, h) {
        var h := Counterpart(accepted, f, g);
      }
    }
    assert Covers(others, rows) by {
      forall h | h in others ensures exists g :: g in rows && SameColumns(h, g) {
        var g := Counterpart(swapped, accepted[f.eventId], h);
      }
    }
    if DistinctBy(others, Version) { AlikeByVersion(rows, others); }
  }

  lemma Reflected(e: PaymentEvent, f: PaymentEvent)
    requires SameColumns(e, f)
    ensures SameColumns(f, e) && e.transactionId == f.transactionId && e.eventId == f.eventId
  {
  }

  lemma SwapNonEmpty(accepted: Accepted, f: PaymentEvent)
    requires WellFormedHistory(accepted) && WellFormed(f) && f.eventId in accepted
    ensures Rows(accepted, accepted[f.eventId].transactionId) != []
    ensures Keyed(accepted[f.eventId := f]) && Rows(accepted[f.eventId := f], f.transactionId) != []
  {
    hide WellFormed;
    SwapKeeps(accepted, f);
    RowsAreEvents(accepted, accepted[f.eventId].transactionId, accepted[f.eventId]);
    RowsAreEvents(accepted[f.eventId := f], f.transactionId, f);
  }

  lemma ConflictIsRepetition(rows: seq<PaymentEvent>)
    requires rows != []
    ensures Assess(rows) == Some(TransactionVersionConflict) <==> !DistinctBy(rows, Version)
  {
    ImageSize(rows, Version);
  }

  /** A swap that keeps the columns keeps the verdict. */
  lemma ColumnsKeepVerdict(accepted: Accepted, f: PaymentEvent)
    requires WellFormedHistory(accepted) && WellFormed(f) && f.eventId in accepted
    requires SameColumns(accepted[f.eventId], f)
    ensures Keyed(accepted[f.eventId := f])
    ensures Verdict(accepted, f.transactionId) == Verdict(accepted[f.eventId := f], f.transactionId)
  {
    hide WellFormed, Assess, DistinctBy, Rows, SameColumns;
    SwapKeeps(accepted, f);
    SwapNonEmpty(accepted, f);
    Reflected(accepted[f.eventId], f);
    var swapped, t := accepted[f.eventId := f], f.transactionId;
    var rows, others := Rows(accepted, t), Rows(swapped, t);
    ConflictIsRepetition(rows);
    ConflictIsRepetition(others);
    if DistinctBy(rows, Version) {
      SwapAlike(accepted, f);
      StillDistinct(accepted, f);
      AssessReadsColumns(rows, others);
    } else if DistinctBy(others, Version) {
      StillDistinct(swapped, accepted[f.eventId]);
    }
  }

  lemma StillDistinct(accepted: Accepted, f: PaymentEvent)
    requires WellFormedHistory(accepted) && WellFormed(f) && f.eventId in accepted
    requires SameColumns(accepted[f.eventId], f)
    requires DistinctBy(Rows(accepted, f.transactionId), Version)
    ensures Keyed(accepted[f.eventId := f])
    ensures DistinctBy(Rows(accepted[f.eventId := f], f.transactionId), Version)
  {
    hide WellFormed;
    SwapKeeps(accepted, f);
    var swapped, t := accepted[f.eventId := f], f.transactionId;
    var rows, others := Rows(accepted, t), Rows(swapped, t);
    forall i, j | 0 <= i < j < |others| ensures Version(others[i]) != Version(others[j]) {
      assert others[i] in others && others[j] in others;
      RowsAreEvents(swapped, t, others[i]);
      RowsAreEvents(swapped, t, others[j]);
      var g := Counterpart(swapped, accepted[f.eventId], others[i]);
      var h := Counterpart(swapped, accepted[f.eventId], others[j]);
      var k :| 0 <= k < |rows| && rows[k] == g;
      var l :| 0 <= l < |rows| && rows[l] == h;
      assert k != l;
    }
  }

  // ---- agreeing swaps show nothing ----

  lemma OtherEvents(accepted: Accepted, f: PaymentEvent, id: string)
    requires f.eventId in accepted && id != f.eventId
    ensures id in accepted[f.eventId := f] <==> id in accepted
    ensures id in accepted ==> accepted[f.eventId := f][id] == accepted[id]
  {
  }

  lemma SameVerdicts(rules: PostingRules, accepted: Accepted, f: PaymentEvent, t: string)
    requires WellFormedHistory(accepted) && WellFormed(f) && f.eventId in accepted
    requires SwapAgrees(rules, accepted, f)
    ensures Keyed(accepted[f.eventId := f])
    ensures Verdict(accepted, t) == Verdict(accepted[f.eventId := f], t)
  {
    hide WellFormed, Rows, Assess;
    SwapKeeps(accepted, f);
    if t != f.transactionId { OtherTransactions(accepted, f, t); }
  }

  lemma VerdictMeans(accepted: Accepted, t: string)
    requires Keyed(accepted)
    ensures Projection.Valid(accepted, t) <==> Verdict(accepted, t) == Some(None)
  {
    hide Rows, Assess;
  }

  lemma SameExceptions(rules: PostingRules, accepted: Accepted, f: PaymentEvent, r: ExceptionRow)
    requires WellFormedHistory(accepted) && WellFormed(f) && f.eventId in accepted
    requires SwapAgrees(rules, accepted, f)
    ensures Keyed(accepted[f.eventId := f])
    ensures IsException(accepted, r) <==> IsException(accepted[f.eventId := f], r)
  {
    hide WellFormed, Rows, Assess;
    SwapKeeps(accepted, f);
    SameVerdicts(rules, accepted, f, r.transactionId);
    if r.eventId != f.eventId { OtherEvents(accepted, f, r.eventId); }
  }

  lemma SamePosted(rules: PostingRules, accepted: Accepted, f: PaymentEvent, r: PostedRow)
    requires WellFormedHistory(accepted) && WellFormed(f) && f.eventId in accepted
    requires SwapAgrees(rules, accepted, f)
    ensures Keyed(accepted[f.eventId := f])
    ensures IsPosted(accepted, rules, r) <==> IsPosted(accepted[f.eventId := f], rules, r)
  {
    hide WellFormed, Rows, Assess, Verdict, Projection.Valid;
    SwapKeeps(accepted, f);
    SameVerdicts(rules, accepted, f, r.transactionId);
    VerdictMeans(accepted, r.transactionId);
    VerdictMeans(accepted[f.eventId := f], r.transactionId);
    if r.eventId != f.eventId {
      OtherEvents(accepted, f, r.eventId);
    } else if Projection.Valid(accepted, r.transactionId) && r.transactionId == f.transactionId {
      SameEventTables(rules, accepted[f.eventId], f);
    }
  }

  lemma SameEventTables(rules: PostingRules, e: PaymentEvent, f: PaymentEvent)
    requires ShowsSame(rules, e, f)
    ensures LinesOf(e, rules) == LinesOf(f, rules)
    ensures LinesOf(e, rules) != [] ==> PostedOf(e) == PostedOf(f)
  {
  }

  lemma SameLedgerLines(rules: PostingRules, accepted: Accepted, f: PaymentEvent, l: PostingLine)
    requires WellFormedHistory(accepted) && WellFormed(f) && f.eventId in accepted
    requires SwapAgrees(rules, accepted, f)
    ensures Keyed(accepted[f.eventId := f])
    ensures IsLine(accepted, rules, l) <==> IsLine(accepted[f.eventId := f], rules, l)
  {
    hide WellFormed, Rows, Assess, Verdict, Projection.Valid, LinesOf;
    SwapKeeps(accepted, f);
    SameVerdicts(rules, accepted, f, l.transactionId);
    VerdictMeans(accepted, l.transactionId);
    VerdictMeans(accepted[f.eventId := f], l.transactionId);
    if l.eventId != f.eventId {
      OtherEvents(accepted, f, l.eventId);
    } else if Projection.Valid(accepted, l.transactionId) && l.transactionId == f.transactionId {
      SameEventTables(rules, accepted[f.eventId], f);
    }
  }

  lemma SameStateRows(rules: PostingRules, accepted: Accepted, f: PaymentEvent, r: PaymentState)
    requires WellFormedHistory(accepted) && WellFormed(f) && f.eventId in accepted
    requires SwapAgrees(rules, accepted, f)
    ensures Keyed(accepted[f.eventId := f])
    ensures IsState(accepted, r) <==> IsState(accepted[f.eventId := f], r)
  {
    hide WellFormed, Rows, Assess, Verdict, StateOf, SameColumns;
    SwapKeeps(accepted, f);
    SameVerdicts(rules, accepted, f, r.transactionId);
    VerdictMeans(accepted, r.transactionId);
    VerdictMeans(accepted[f.eventId := f], r.transactionId);
    if r.transactionId != f.transactionId {
      OtherTransactions(accepted, f, r.transactionId);
    } else if Projection.Valid(accepted, r.transactionId) {
      ValidSwapAlike(rules, accepted, f);
      StateReadsColumns(Rows(accepted, f.transactionId), Rows(accepted[f.eventId := f], f.transactionId));
    }
  }

  lemma ValidSwapAlike(rules: PostingRules, accepted: Accepted, f: PaymentEvent)
    requires WellFormedHistory(accepted) && WellFormed(f) && f.eventId in accepted
    requires SwapAgrees(rules, accepted, f) && Projection.Valid(accepted, f.transactionId)
    ensures Keyed(accepted[f.eventId := f])
    ensures Alike(Rows(accepted, f.transactionId), Rows(accepted[f.eventId := f], f.transactionId))
  {
    hide WellFormed, Rows, Assess, DistinctBy, SameColumns;
    SwapKeeps(accepted, f);
    var swapped := accepted[f.eventId := f];
    VerdictMeans(accepted, f.transactionId);
    VerdictMeans(swapped, f.transactionId);
    ConflictIsRepetition(Rows(accepted, f.transactionId));
    ConflictIsRepetition(Rows(swapped, f.transactionId));
    SwapAlike(accepted, f);
  }

  lemma AgreeingSwapShowsNothing(rules: PostingRules, accepted: Accepted, f: PaymentEvent)
    requires WellFormedHistory(accepted) && WellFormed(f) && f.eventId in accepted
    requires SwapAgrees(rules, accepted, f)
    ensures Keyed(accepted[f.eventId := f])
    ensures SameContents(Project(accepted, rules), Project(accepted[f.eventId := f], rules))
  {
    hide WellFormed, SwapAgrees, Project, IsException, IsPosted, IsLine, IsState;
    SwapKeeps(accepted, f);
    var swapped := accepted[f.eventId := f];
    ProjectionIsExact(accepted, rules);
    ProjectionIsExact(swapped, rules);
    forall r { SameExceptions(rules, accepted, f, r); }
    forall r { SamePosted(rules, accepted, f, r); }
    forall l { SameLedgerLines(rules, accepted, f, l); }
    forall r { SameStateRows(rules, accepted, f, r); }
  }

  // ---- and only they ----

  ghost predicate ShownAlike(rules: PostingRules, accepted: Accepted, swapped: Accepted)
    requires Keyed(accepted) && Keyed(swapped)
  {
    && (forall r :: IsException(accepted, r) <==> IsException(swapped, r))
    && (forall r :: IsPosted(accepted, rules, r) <==> IsPosted(swapped, rules, r))
    && (forall r :: IsState(accepted, r) <==> IsState(swapped, r))
  }

  lemma ContentsShown(rules: PostingRules, accepted: Accepted, swapped: Accepted)
    requires Keyed(accepted) && Keyed(swapped)
    requires SameContents(Project(accepted, rules), Project(swapped, rules))
    ensures ShownAlike(rules, accepted, swapped)
  {
    hide Project, IsException, IsPosted, IsLine, IsState;
    ProjectionIsExact(accepted, rules);
    ProjectionIsExact(swapped, rules);
  }

  /** An exception row gives away both the transaction and the verdict. */
  lemma ExceptionTells(rules: PostingRules, accepted: Accepted, f: PaymentEvent)
    requires WellFormedHistory(accepted) && WellFormed(f) && f.eventId in accepted
    requires Keyed(accepted[f.eventId := f]) && ShownAlike(rules, accepted, accepted[f.eventId := f])
    requires !Projection.Valid(accepted, accepted[f.eventId].transactionId)
    ensures f.transactionId == accepted[f.eventId].transactionId
    ensures Verdict(accepted[f.eventId := f], f.transactionId) == Verdict(accepted, f.transactionId)
  {
    hide WellFormed, Rows, Assess, IsPosted, IsState;
    SwapNonEmpty(accepted, f);
    var e, swapped := accepted[f.eventId], accepted[f.eventId := f];
    var r := ExceptionRow(f.eventId, e.transactionId, Assess(Rows(accepted, e.transactionId)).value);
    assert IsException(accepted, r);
    assert IsException(swapped, r);
  }

  /** A transaction that loses its event has a shorter history. */
  lemma LosesEvent(accepted: Accepted, f: PaymentEvent)
    requires WellFormedHistory(accepted) && WellFormed(f) && f.eventId in accepted
    requires f.transactionId != accepted[f.eventId].transactionId
    ensures var t := accepted[f.eventId].transactionId;
      |EventsOf(accepted[f.eventId := f], t)| < |EventsOf(accepted, t)|
  {
    hide WellFormed;
    var e, swapped := accepted[f.eventId], accepted[f.eventId := f];
    var few, many := EventsOf(swapped, e.transactionId), EventsOf(accepted, e.transactionId);
    forall x | x in few ensures x in many - {e} {
      var id :| id in swapped && swapped[id] == x && x.transactionId == e.transactionId;
      OtherEvents(accepted, f, id);
      assert accepted[id] in many;
    }
    assert e in many;
    assert many - {e} == few + ((many - {e}) - few);
  }

  lemma StateTells(rules: PostingRules, accepted: Accepted, swapped: Accepted, t: string)
    requires Keyed(accepted) && Keyed(swapped) && ShownAlike(rules, accepted, swapped)
    requires Projection.Valid(accepted, t)
    ensures Projection.Valid(swapped, t)
    ensures StateOf(Rows(accepted, t)) == StateOf(Rows(swapped, t))
    ensures |EventsOf(accepted, t)| == |EventsOf(swapped, t)|
  {
    hide Rows, Assess, StateOf, IsException, IsPosted, EventsOf;
    StateVersion(accepted, t);
    assert IsState(accepted, StateOf(Rows(accepted, t)));
    assert IsState(swapped, StateOf(Rows(accepted, t)));
    StateVersion(swapped, t);
  }

  /** Tables tell the transaction and the verdict. */
  lemma SameTransactionAndVerdict(rules: PostingRules, accepted: Accepted, f: PaymentEvent)
    requires WellFormedHistory(accepted) && WellFormed(f) && f.eventId in accepted
    requires Keyed(accepted[f.eventId := f]) && ShownAlike(rules, accepted, accepted[f.eventId := f])
    ensures f.transactionId == accepted[f.eventId].transactionId
    ensures Verdict(accepted[f.eventId := f], f.transactionId) == Verdict(accepted, f.transactionId)
  {
    hide WellFormed, ShownAlike, Verdict, EventsOf, Projection.Valid, Rows;
    var e, swapped := accepted[f.eventId], accepted[f.eventId := f];
    SwapKeeps(accepted, f);
    if !Projection.Valid(accepted, e.transactionId) {
      ExceptionTells(rules, accepted, f);
    } else if !Projection.Valid(swapped, f.transactionId) {
      ShownBack(rules, accepted, swapped);
      ExceptionTells(rules, swapped, e);
    } else {
      StateTells(rules, accepted, swapped, e.transactionId);
      if f.transactionId != e.transactionId { LosesEvent(accepted, f); }
      VerdictMeans(accepted, f.transactionId);
      VerdictMeans(swapped, f.transactionId);
    }
  }

  lemma ShownBack(rules: PostingRules, accepted: Accepted, swapped: Accepted)
    requires Keyed(accepted) && Keyed(swapped) && ShownAlike(rules, accepted, swapped)
    ensures ShownAlike(rules, swapped, accepted)
  {
    hide IsException, IsPosted, IsState;
  }

  /** The rest of the transaction. */
  lemma SwapRest(accepted: Accepted, f: PaymentEvent)
    requires WellFormedHistory(accepted) && WellFormed(f) && f.eventId in accepted
    requires f.transactionId == accepted[f.eventId].transactionId
    ensures var t := f.transactionId; var swapped := accepted[f.eventId := f];
      && accepted[f.eventId] in EventsOf(accepted, t) && f in EventsOf(swapped, t)
      && EventsOf(accepted, t) - {accepted[f.eventId]} == EventsOf(swapped, t) - {f}
  {
    hide WellFormed;
    var e, swapped, t := accepted[f.eventId], accepted[f.eventId := f], f.transactionId;
    assert swapped[f.eventId] == f;
    forall x ensures x in EventsOf(accepted, t) - {e} <==> x in EventsOf(swapped, t) - {f} {
      if x in EventsOf(accepted, t) - {e} {
        var id :| id in accepted && accepted[id] == x && x.transactionId == t;
        assert id != f.eventId;
        assert swapped[id] == x;
      }
      if x in EventsOf(swapped, t) - {f} {
        var id :| id in swapped && swapped[id] == x && x.transactionId == t;
        assert id != f.eventId;
        assert accepted[id] == x;
      }
    }
  }

  /** Equal sums over all events leave equal parts for the swapped one. */
  lemma PartTells(accepted: Accepted, f: PaymentEvent, part: PaymentEvent -> int)
    requires WellFormedHistory(accepted) && WellFormed(f) && f.eventId in accepted
    requires f.transactionId == accepted[f.eventId].transactionId && Keyed(accepted[f.eventId := f])
    requires SumSeq(Rows(accepted, f.transactionId), part) == SumSeq(Rows(accepted[f.eventId := f], f.transactionId), part)
    ensures part(accepted[f.eventId]) == part(f)
  {
    hide WellFormed, EventsOf, Rows;
    var e, swapped, t := accepted[f.eventId], accepted[f.eventId := f], f.transactionId;
    SwapRest(accepted, f);
    ListingSum(Rows(accepted, t), EventsOf(accepted, t), part);
    ListingSum(Rows(swapped, t), EventsOf(swapped, t), part);
    SumRemove(EventsOf(accepted, t), part, e);
    SumRemove(EventsOf(swapped, t), part, f);
  }

  lemma PartsTell(e: PaymentEvent, f: PaymentEvent)
    requires e.amountMinor > 0 && f.amountMinor > 0
    requires AuthorizedPart(e) == AuthorizedPart(f) && CapturedPart(e) == CapturedPart(f)
    requires RefundedPart(e) == RefundedPart(f) && ChargebackPart(e) == ChargebackPart(f)
    ensures e.eventType == f.eventType && e.amountMinor == f.amountMinor
  {
  }

  lemma TotalsTell(accepted: Accepted, f: PaymentEvent)
    requires WellFormedHistory(accepted) && WellFormed(f) && f.eventId in accepted
    requires f.transactionId == accepted[f.eventId].transactionId && Keyed(accepted[f.eventId := f])
    requires Rows(accepted, f.transactionId) != [] && Rows(accepted[f.eventId := f], f.transactionId) != []
    requires StateOf(Rows(accepted, f.transactionId)) == StateOf(Rows(accepted[f.eventId := f], f.transactionId))
    ensures accepted[f.eventId].eventType == f.eventType && accepted[f.eventId].amountMinor == f.amountMinor
  {
    hide Rows, IsIdentifier, SumSeq, AuthorizedMinor, CapturedMinor, RefundedMinor, ChargebackMinor;
    var t, swapped := f.transactionId, accepted[f.eventId := f];
    TotalsAreParts(Rows(accepted, t));
    TotalsAreParts(Rows(swapped, t));
    PartTells(accepted, f, AuthorizedPart);
    PartTells(accepted, f, CapturedPart);
    PartTells(accepted, f, RefundedPart);
    PartTells(accepted, f, ChargebackPart);
    PartsTell(accepted[f.eventId], f);
  }

  lemma PartyTells(rows: seq<PaymentEvent>, e: PaymentEvent)
    requires AcceptedShape(rows) && e in rows
    ensures var s := StateOf(rows); s.currency == e.currency && s.processorId == e.processorId && s.merchantId == e.merchantId
    ensures 1 <= e.transactionVersion <= |rows| && rows[e.transactionVersion - 1] == e
  {
    hide AuthorizedMinor, CapturedMinor, RefundedMinor, ChargebackMinor;
    assert rows[|rows| - 1] in rows;
    var i :| 0 <= i < |rows| && rows[i] == e;
  }

  /** Versions are 1..n before and after, so the swapped event keeps its version. */
  lemma VersionTells(accepted: Accepted, f: PaymentEvent)
    requires WellFormedHistory(accepted) && WellFormed(f) && f.eventId in accepted
    requires f.transactionId == accepted[f.eventId].transactionId && Keyed(accepted[f.eventId := f])
    requires AcceptedShape(Rows(accepted, f.transactionId)) && AcceptedShape(Rows(accepted[f.eventId := f], f.transactionId))
    requires |Rows(accepted, f.transactionId)| == |Rows(accepted[f.eventId := f], f.transactionId)|
    ensures accepted[f.eventId].transactionVersion == f.transactionVersion
  {
    hide WellFormed, CapturedMinor, RefundedMinor, ChargebackMinor, StateOf;
    var t, swapped := f.transactionId, accepted[f.eventId := f];
    var rows, others := Rows(accepted, t), Rows(swapped, t);
    RowsAreEvents(swapped, t, f);
    PartyTells(others, f);
    var g := rows[f.transactionVersion - 1];
    assert g in rows;
    RowsAreEvents(accepted, t, g);
    if g.eventId != f.eventId {
      RowsAreEvents(swapped, t, g);
      PartyTells(others, g);
    }
  }

  lemma ValidRowsTell(accepted: Accepted, f: PaymentEvent)
    requires WellFormedHistory(accepted) && WellFormed(f) && f.eventId in accepted
    requires f.transactionId == accepted[f.eventId].transactionId && Keyed(accepted[f.eventId := f])
    requires Projection.Valid(accepted, f.transactionId) && Projection.Valid(accepted[f.eventId := f], f.transactionId)
    requires StateOf(Rows(accepted, f.transactionId)) == StateOf(Rows(accepted[f.eventId := f], f.transactionId))
    requires |EventsOf(accepted, f.transactionId)| == |EventsOf(accepted[f.eventId := f], f.transactionId)|
    ensures SameColumns(accepted[f.eventId], f)
  {
    hide WellFormed, Rows, StateOf, Assess, AcceptedShape;
    var t, swapped := f.transactionId, accepted[f.eventId := f];
    AcceptedHasShape(Rows(accepted, t));
    AcceptedHasShape(Rows(swapped, t));
    ListingLength(Rows(accepted, t), EventsOf(accepted, t));
    ListingLength(Rows(swapped, t), EventsOf(swapped, t));
    RowsAreEvents(accepted, t, accepted[f.eventId]);
    RowsAreEvents(swapped, t, f);
    VersionTells(accepted, f);
    TotalsTell(accepted, f);
    PartyTells(Rows(accepted, t), accepted[f.eventId]);
    PartyTells(Rows(swapped, t), f);
  }

  /** Swapping the accepted claim of one event id leaves every table's rows as they are exactly if the swap agrees. */
  lemma SwapShowsNothingExactly(rules: PostingRules, accepted: Accepted, f: PaymentEvent)
    requires WellFormedHistory(accepted) && WellFormed(f) && f.eventId in accepted
    ensures Keyed(accepted[f.eventId := f])
    ensures SameContents(Project(accepted, rules), Project(accepted[f.eventId := f], rules)) <==> SwapAgrees(rules, accepted, f)
  {
    hide WellFormed, Project, SameContents, ShownAlike, Rows, Assess, StateOf, EventsOf, SameColumns, LinesOf;
    SwapKeeps(accepted, f);
    var e, swapped, t := accepted[f.eventId], accepted[f.eventId := f], f.transactionId;
    if SwapAgrees(rules, accepted, f) { AgreeingSwapShowsNothing(rules, accepted, f); }
    if SameContents(Project(accepted, rules), Project(swapped, rules)) {
      ContentsShown(rules, accepted, swapped);
      SameTransactionAndVerdict(rules, accepted, f);
      VerdictMeans(accepted, t);
      VerdictMeans(swapped, t);
      if Projection.Valid(accepted, t) {
        StateTells(rules, accepted, swapped, t);
        ValidRowsTell(accepted, f);
        PostedTells(rules, accepted, f);
      }
    }
  }

  lemma PostedTells(rules: PostingRules, accepted: Accepted, f: PaymentEvent)
    requires WellFormedHistory(accepted) && WellFormed(f) && f.eventId in accepted
    requires f.transactionId == accepted[f.eventId].transactionId && Keyed(accepted[f.eventId := f])
    requires ShownAlike(rules, accepted, accepted[f.eventId := f]) && Projection.Valid(accepted, f.transactionId)
    ensures LinesOf(accepted[f.eventId], rules) != [] ==> accepted[f.eventId].eventTime == f.eventTime
  {
    hide WellFormed, Rows, Assess, IsException, IsState, LinesOf, Projection.Valid;
    var e, swapped := accepted[f.eventId], accepted[f.eventId := f];
    if LinesOf(e, rules) != [] {
      assert IsPosted(accepted, rules, PostedOf(e));
      assert IsPosted(swapped, rules, PostedOf(e));
    }
  }

  // ---- all orders of a collection of raw events ----

  /** However the raw events are ordered, repeated and batched, every projection table has the same rows. */
  ghost predicate TablesOrderIrrelevant(gate: Gate, rules: PostingRules, raws: seq<Raw>) {
    forall first, second ::
      SameElements(CommittedRaws(gate, rules, first), raws) && SameElements(CommittedRaws(gate, rules, second), raws)
      ==> SameContents(After(gate, rules, first).tables, After(gate, rules, second).tables)
  }

  /** One way of picking, for every claimed event id, the claim that is accepted. */
  ghost predicate Selection(gate: Gate, raws: seq<Raw>, accepted: Accepted) {
    && (forall raw, id :: raw in raws && Claims(gate, raw, id) ==> id in accepted)
    && (forall id :: id in accepted ==> SelectedFrom(gate, raws, accepted, id))
  }

  ghost predicate SelectedFrom(gate: Gate, raws: seq<Raw>, accepted: Accepted, id: string) {
    id in accepted && exists raw :: raw in raws && Claims(gate, raw, id) && accepted[id] == ValidateEvent(gate, raw).value
  }

  /** Whichever claims are picked, replacing one by a rival agrees. */
  ghost predicate RivalsAgree(gate: Gate, rules: PostingRules, raws: seq<Raw>) {
    forall accepted, raw ::
      Selection(gate, raws, accepted) && raw in raws && ValidateEvent(gate, raw).Ok?
      ==> RivalAgrees(gate, rules, accepted, raw)
  }

  ghost predicate RivalAgrees(gate: Gate, rules: PostingRules, accepted: Accepted, raw: Raw)
    requires ValidateEvent(gate, raw).Ok?
  {
    var f := ValidateEvent(gate, raw).value;
    WellFormedHistory(accepted) && WellFormed(f) && f.eventId in accepted && SwapAgrees(rules, accepted, f)
  }

  lemma ClaimIsWellFormed(gate: Gate, raw: Raw)
    requires ValidateEvent(gate, raw).Ok?
    ensures WellFormed(ValidateEvent(gate, raw).value)
    ensures Claims(gate, raw, ValidateEvent(gate, raw).value.eventId)
  {
    hide ValidateEvent;
    ValidatedEvent(gate, raw);
  }

  lemma SelectionIsWellFormed(gate: Gate, raws: seq<Raw>, accepted: Accepted)
    requires Selection(gate, raws, accepted)
    ensures WellFormedHistory(accepted)
  {
    hide ValidateEvent, WellFormed;
    forall id | id in accepted ensures accepted[id].eventId == id && WellFormed(accepted[id]) {
      assert SelectedFrom(gate, raws, accepted, id);
      var raw :| raw in raws && Claims(gate, raw, id) && accepted[id] == ValidateEvent(gate, raw).value;
      ClaimIsWellFormed(gate, raw);
    }
  }

  lemma SwapSelects(gate: Gate, raws: seq<Raw>, accepted: Accepted, raw: Raw)
    requires Selection(gate, raws, accepted) && raw in raws && ValidateEvent(gate, raw).Ok?
    ensures var f := ValidateEvent(gate, raw).value;
      f.eventId in accepted && Selection(gate, raws, accepted[f.eventId := f])
  {
    hide ValidateEvent;
    var f := ValidateEvent(gate, raw).value;
    assert Claims(gate, raw, f.eventId);
    var swapped := accepted[f.eventId := f];
    forall id | id in swapped ensures SelectedFrom(gate, raws, swapped, id) {
      assert id != f.eventId ==> SelectedFrom(gate, raws, accepted, id);
    }
  }

  /** What runs accept from the raw events is a selection. */
  lemma RunsSelect(gate: Gate, rules: PostingRules, runs: seq<RunInput>, raws: seq<Raw>)
    requires SameElements(CommittedRaws(gate, rules, runs), raws)
    ensures Selection(gate, raws, After(gate, rules, runs).accepted)
  {
    hide ValidateEvent, After, CommittedRaws, Claims, IdentityFingerprint;
    var db := After(gate, rules, runs);
    forall raw, id | raw in raws && Claims(gate, raw, id) ensures id in db.accepted {
      AcceptedIsExplained(gate, rules, runs, id);
    }
    forall id | id in db.accepted ensures SelectedFrom(gate, raws, db.accepted, id) {
      AcceptedIsExplained(gate, rules, runs, id);
      var raw :| raw in CommittedRaws(gate, rules, runs) && CameFrom(gate, db, raw, id);
    }
  }

  /** The picked claims come first; none claims an id outside the set. */
  ghost predicate Leads(gate: Gate, raws: seq<Raw>, accepted: Accepted, ids: set<string>, leading: seq<Raw>) {
    && (forall raw :: raw in leading ==> raw in raws)
    && (forall raw, id :: raw in leading && Claims(gate, raw, id) ==> id in ids)
    && (forall id :: id in ids ==> LedBy(gate, accepted, leading, id))
  }

  ghost predicate LedBy(gate: Gate, accepted: Accepted, leading: seq<Raw>, id: string) {
    id in accepted && exists i: nat :: FirstClaim(gate, leading, i, id) && accepted[id] == ValidateEvent(gate, leading[i]).value
  }

  lemma {:induction false} LeadingExists(gate: Gate, raws: seq<Raw>, accepted: Accepted, ids: set<string>) returns (leading: seq<Raw>)
    requires Selection(gate, raws, accepted) && ids <= accepted.Keys
    ensures Leads(gate, raws, accepted, ids, leading)
  {
    hide ValidateEvent, Leads, Selection;
    if ids == {} {
      leading := [];
      NothingLeads(gate, raws, accepted);
    } else {
      var id :| id in ids;
      var rest := LeadingExists(gate, raws, accepted, ids - {id});
      var raw := Picked(gate, raws, accepted, id);
      leading := rest + [raw];
      LeadsMore(gate, raws, accepted, ids - {id}, rest, raw, id);
      assert ids - {id} + {id} == ids;
    }
  }

  lemma NothingLeads(gate: Gate, raws: seq<Raw>, accepted: Accepted)
    ensures Leads(gate, raws, accepted, {}, [])
  {
    hide ValidateEvent, Claims;
  }

  lemma Picked(gate: Gate, raws: seq<Raw>, accepted: Accepted, id: string) returns (raw: Raw)
    requires Selection(gate, raws, accepted) && id in accepted
    ensures raw in raws && Claims(gate, raw, id) && accepted[id] == ValidateEvent(gate, raw).value
  {
    hide ValidateEvent;
    assert SelectedFrom(gate, raws, accepted, id);
    raw :| raw in raws && Claims(gate, raw, id) && accepted[id] == ValidateEvent(gate, raw).value;
  }

  lemma LeadsMore(gate: Gate, raws: seq<Raw>, accepted: Accepted, ids: set<string>, rest: seq<Raw>, raw: Raw, id: string)
    requires Leads(gate, raws, accepted, ids, rest) && id !in ids && id in accepted
    requires raw in raws && Claims(gate, raw, id) && accepted[id] == ValidateEvent(gate, raw).value
    ensures Leads(gate, raws, accepted, ids + {id}, rest + [raw])
  {
    hide ValidateEvent;
    var leading := rest + [raw];
    assert forall x :: x in leading <==> x in rest || x == raw;
    forall other | other in ids + {id} ensures LedBy(gate, accepted, leading, other) {
      if other == id {
        forall j | 0 <= j < |rest| ensures !Claims(gate, leading[j], id) {
          assert leading[j] == rest[j] && rest[j] in rest;
        }
        assert FirstClaim(gate, leading, |rest|, id);
      } else {
        assert LedBy(gate, accepted, rest, other);
        var i: nat :| FirstClaim(gate, rest, i, other) && accepted[other] == ValidateEvent(gate, rest[i]).value;
        assert forall j :: 0 <= j <= i ==> leading[j] == rest[j];
        assert FirstClaim(gate, leading, i, other);
      }
    }
  }

  /** Every selection is accepted by some order of the raw events. */
  lemma SelectionIsReached(gate: Gate, rules: PostingRules, raws: seq<Raw>, accepted: Accepted) returns (runs: seq<RunInput>)
    requires BalancedRules(rules) && Selection(gate, raws, accepted)
    ensures SameElements(CommittedRaws(gate, rules, runs), raws)
    ensures After(gate, rules, runs).accepted == accepted
  {
    hide ValidateEvent, BalancedRules, Selection, Leads, After, CommittedRaws, SameElements, IngestAll;
    var leading := LeadingExists(gate, raws, accepted, accepted.Keys);
    runs := [RunInput("run", leading + raws, None)];
    OneRun(gate, rules, leading + raws);
    LeadersWin(gate, raws, accepted, leading);
    LeadingAddsNothing(gate, raws, accepted, leading);
  }

  lemma LeadersWin(gate: Gate, raws: seq<Raw>, accepted: Accepted, leading: seq<Raw>)
    requires Selection(gate, raws, accepted) && Leads(gate, raws, accepted, accepted.Keys, leading)
    ensures IngestAll(gate, "run", Opening(EMPTY_DATABASE), leading + raws).accepted == accepted
  {
    hide Selection, Leads, IngestAll;
    var after := IngestAll(gate, "run", Opening(EMPTY_DATABASE), leading + raws).accepted;
    forall id ensures (id in after <==> id in accepted) && (id in accepted ==> after[id] == accepted[id]) {
      LeaderWins(gate, raws, accepted, leading, id);
    }
    assert after.Keys == accepted.Keys;
  }

  lemma LeadingAddsNothing(gate: Gate, raws: seq<Raw>, accepted: Accepted, leading: seq<Raw>)
    requires Leads(gate, raws, accepted, accepted.Keys, leading)
    ensures SameElements(leading + raws, raws)
  {
    hide ValidateEvent, Claims;
  }

  lemma OneRun(gate: Gate, rules: PostingRules, raws: seq<Raw>)
    requires BalancedRules(rules)
    ensures var runs, tray := [RunInput("run", raws, None)], IngestAll(gate, "run", Opening(EMPTY_DATABASE), raws);
      && CommittedRaws(gate, rules, runs) == raws
      && After(gate, rules, runs).accepted == tray.accepted
  {
    hide ValidateEvent, IngestAll, Postable, Project, BalancedRules, EventOfIdentity;
    var run := RunInput("run", raws, None);
    assert [run][..0] == [] && After(gate, rules, []) == EMPTY_DATABASE;
    BalancedRulesCommit(gate, rules, EMPTY_DATABASE, run);
    assert CommittedRaws(gate, rules, [run]) == CommittedRaws(gate, rules, []) + run.rawEvents;
  }

  lemma LeaderWins(gate: Gate, raws: seq<Raw>, accepted: Accepted, leading: seq<Raw>, id: string)
    requires Selection(gate, raws, accepted) && Leads(gate, raws, accepted, accepted.Keys, leading)
    ensures var after := IngestAll(gate, "run", Opening(EMPTY_DATABASE), leading + raws).accepted;
      (id in after <==> id in accepted) && (id in accepted ==> after[id] == accepted[id])
  {
    hide ValidateEvent, IngestAll, IdentityFingerprint;
    FirstWriterWins(gate, "run", Opening(EMPTY_DATABASE), leading + raws, id);
    assert forall raw :: raw in leading + raws <==> raw in leading || raw in raws;
    if id in accepted {
      assert LedBy(gate, accepted, leading, id);
      var i: nat :| FirstClaim(gate, leading, i, id) && accepted[id] == ValidateEvent(gate, leading[i]).value;
      assert forall j :: 0 <= j <= i ==> (leading + raws)[j] == leading[j];
      assert FirstClaim(gate, leading + raws, i, id);
    }
  }

  lemma SameContentsThrough(a: Tables, b: Tables, c: Tables)
    requires SameContents(a, b) && SameContents(b, c)
    ensures SameContents(a, c)
  {
  }

  function Differing(a: Accepted, b: Accepted): set<string> {
    set id | id in a && id in b && a[id] != b[id]
  }

  /** Two selections are connected by single swaps. */
  lemma {:induction false} SelectionsConnect(gate: Gate, rules: PostingRules, raws: seq<Raw>, a: Accepted, b: Accepted)
    requires Selection(gate, raws, a) && Selection(gate, raws, b) && RivalsAgree(gate, rules, raws)
    ensures Keyed(a) && Keyed(b) && SameContents(Project(a, rules), Project(b, rules))
    decreases |Differing(a, b)|
  {
    hide ValidateEvent, Selection, SameContents, Project, RivalsAgree, WellFormedHistory, SwapAgrees, Claims;
    SelectionIsWellFormed(gate, raws, a);
    SelectionIsWellFormed(gate, raws, b);
    HistoryIsKeyed(a);
    HistoryIsKeyed(b);
    SameIds(gate, raws, a, b);
    if Differing(a, b) == {} {
      NothingDiffers(a, b);
      SameAsItself(Project(a, rules));
    } else {
      var id :| id in Differing(a, b);
      var raw := Picked(gate, raws, b, id);
      var next := SwapToward(gate, rules, raws, a, raw, id);
      OneLessDiffers(a, b, id);
      SelectionsConnect(gate, rules, raws, next, b);
      SameContentsThrough(Project(a, rules), Project(next, rules), Project(b, rules));
    }
  }

  lemma NothingDiffers(a: Accepted, b: Accepted)
    requires a.Keys == b.Keys && Differing(a, b) == {}
    ensures a == b
  {
    forall id | id in a ensures a[id] == b[id] {
      assert id !in Differing(a, b);
    }
  }

  lemma OneLessDiffers(a: Accepted, b: Accepted, id: string)
    requires id in Differing(a, b)
    ensures Differing(a[id := b[id]], b) == Differing(a, b) - {id}
  {
  }

  lemma HistoryIsKeyed(a: Accepted)
    requires WellFormedHistory(a)
    ensures Keyed(a)
  {
  }

  lemma SameAsItself(a: Tables)
    ensures SameContents(a, a)
  {
  }

  lemma SameIds(gate: Gate, raws: seq<Raw>, a: Accepted, b: Accepted)
    requires Selection(gate, raws, a) && Selection(gate, raws, b)
    ensures a.Keys == b.Keys
  {
    hide ValidateEvent, Claims;
    assert forall id :: id in a ==> SelectedFrom(gate, raws, a, id);
    assert forall id :: id in b ==> SelectedFrom(gate, raws, b, id);
  }

  lemma SwapToward(gate: Gate, rules: PostingRules, raws: seq<Raw>, a: Accepted, raw: Raw, id: string) returns (next: Accepted)
    requires Selection(gate, raws, a) && RivalsAgree(gate, rules, raws)
    requires raw in raws && Claims(gate, raw, id) && id in a
    ensures next == a[id := ValidateEvent(gate, raw).value] && Selection(gate, raws, next)
    ensures Keyed(a) && Keyed(next) && SameContents(Project(a, rules), Project(next, rules))
  {
    hide ValidateEvent, Selection, SameContents, Project, SwapAgrees;
    var f := ValidateEvent(gate, raw).value;
    next := a[id := f];
    assert RivalAgrees(gate, rules, a, raw);
    SwapSelects(gate, raws, a, raw);
    AgreeingSwapShowsNothing(rules, a, f);
  }

  /**
   Arrival order cannot change the projections exactly if rival claims agree: whichever claims are picked, every
   replacement of one by a rival leaves its transaction and the verdict on it as they are, and the visible columns
   too where that verdict is acceptance.
   */
  lemma OrderIrrelevantExactly(gate: Gate, rules: PostingRules, raws: seq<Raw>)
    requires BalancedRules(rules)
    ensures TablesOrderIrrelevant(gate, rules, raws) <==> RivalsAgree(gate, rules, raws)
  {
    hide ValidateEvent, BalancedRules, TablesOrderIrrelevant, RivalsAgree, Selection;
    if RivalsAgree(gate, rules, raws) { AgreementSuffices(gate, rules, raws); }
    if TablesOrderIrrelevant(gate, rules, raws) { AgreementIsNeeded(gate, rules, raws); }
  }

  lemma AgreementSuffices(gate: Gate, rules: PostingRules, raws: seq<Raw>)
    requires RivalsAgree(gate, rules, raws)
    ensures TablesOrderIrrelevant(gate, rules, raws)
  {
    hide RivalsAgree, Selection, SameContents, Project, After, CommittedRaws, SameElements, Postable, Sound;
    forall first, second |
      SameElements(CommittedRaws(gate, rules, first), raws) && SameElements(CommittedRaws(gate, rules, second), raws)
      ensures SameContents(After(gate, rules, first).tables, After(gate, rules, second).tables)
    {
      RunsSelect(gate, rules, first, raws);
      RunsSelect(gate, rules, second, raws);
      SelectionsConnect(gate, rules, raws, After(gate, rules, first).accepted, After(gate, rules, second).accepted);
      TablesMirrorHistory(gate, rules, first);
      TablesMirrorHistory(gate, rules, second);
    }
  }

  lemma AgreementIsNeeded(gate: Gate, rules: PostingRules, raws: seq<Raw>)
    requires BalancedRules(rules) && TablesOrderIrrelevant(gate, rules, raws)
    ensures RivalsAgree(gate, rules, raws)
  {
    hide ValidateEvent, BalancedRules, Selection, TablesOrderIrrelevant, RivalAgrees;
    forall accepted, raw | Selection(gate, raws, accepted) && raw in raws && ValidateEvent(gate, raw).Ok?
      ensures RivalAgrees(gate, rules, accepted, raw)
    {
      RivalMustAgree(gate, rules, raws, accepted, raw);
    }
  }

  lemma RivalMustAgree(gate: Gate, rules: PostingRules, raws: seq<Raw>, accepted: Accepted, raw: Raw)
    requires BalancedRules(rules) && TablesOrderIrrelevant(gate, rules, raws)
    requires Selection(gate, raws, accepted) && raw in raws && ValidateEvent(gate, raw).Ok?
    ensures RivalAgrees(gate, rules, accepted, raw)
  {
    hide ValidateEvent, BalancedRules, Selection, SameContents, Project, After, CommittedRaws, SameElements, Postable, Sound;
    hide SwapAgrees, WellFormed, WellFormedHistory;
    var f := ValidateEvent(gate, raw).value;
    SwapSelects(gate, raws, accepted, raw);
    SelectionIsWellFormed(gate, raws, accepted);
    ClaimIsWellFormed(gate, raw);
    var first := SelectionIsReached(gate, rules, raws, accepted);
    var second := SelectionIsReached(gate, rules, raws, accepted[f.eventId := f]);
    TablesMirrorHistory(gate, rules, first);
    TablesMirrorHistory(gate, rules, second);
    SwapShowsNothingExactly(rules, accepted, f);
  }

  // ---- simpler conditions ----

  /** Rival claims agree on all that a valid history shows. */
  ghost predicate RivalsShowSame(gate: Gate, rules: PostingRules, raws: seq<Raw>) {
    forall a, b, id :: a in raws && b in raws && Claims(gate, a, id) && Claims(gate, b, id) ==>
      ShowsSame(rules, ValidateEvent(gate, a).value, ValidateEvent(gate, b).value)
  }

  /** Agreement on the visible columns is enough, whatever else rivals differ in. */
  lemma VisibleAgreementSuffices(gate: Gate, rules: PostingRules, raws: seq<Raw>)
    requires RivalsShowSame(gate, rules, raws)
    ensures TablesOrderIrrelevant(gate, rules, raws)
  {
    hide ValidateEvent, Selection, ShowsSame, TablesOrderIrrelevant;
    forall accepted, raw | Selection(gate, raws, accepted) && raw in raws && ValidateEvent(gate, raw).Ok?
      ensures RivalAgrees(gate, rules, accepted, raw)
    {
      VisibleRivalAgrees(gate, rules, raws, accepted, raw);
    }
    AgreementSuffices(gate, rules, raws);
  }

  lemma VisibleRivalAgrees(gate: Gate, rules: PostingRules, raws: seq<Raw>, accepted: Accepted, raw: Raw)
    requires RivalsShowSame(gate, rules, raws)
    requires Selection(gate, raws, accepted) && raw in raws && ValidateEvent(gate, raw).Ok?
    ensures RivalAgrees(gate, rules, accepted, raw)
  {
    hide ValidateEvent, Selection, WellFormed, WellFormedHistory, Verdict, SameColumns;
    var f := ValidateEvent(gate, raw).value;
    SelectionIsWellFormed(gate, raws, accepted);
    ClaimIsWellFormed(gate, raw);
    SwapSelects(gate, raws, accepted, raw);
    var other := Picked(gate, raws, accepted, f.eventId);
    assert ShowsSame(rules, accepted[f.eventId], f);
    ColumnsKeepVerdict(accepted, f);
    Reflected(accepted[f.eventId], f);
  }

  /** Where the picked history is valid, a rival that differs in a visible column makes order matter. */
  lemma ValidRivalsMakeOrderMatter(gate: Gate, rules: PostingRules, raws: seq<Raw>, accepted: Accepted, raw: Raw)
    requires BalancedRules(rules) && Selection(gate, raws, accepted)
    requires raw in raws && ValidateEvent(gate, raw).Ok? && ValidateEvent(gate, raw).value.eventId in accepted
    requires var e := accepted[ValidateEvent(gate, raw).value.eventId];
      && Keyed(accepted) && Projection.Valid(accepted, e.transactionId)
      && !ShowsSame(rules, e, ValidateEvent(gate, raw).value)
    ensures !TablesOrderIrrelevant(gate, rules, raws)
  {
    hide ValidateEvent, BalancedRules, Selection, Rows, Assess, TablesOrderIrrelevant, ShowsSame, WellFormed;
    if TablesOrderIrrelevant(gate, rules, raws) {
      RivalMustAgree(gate, rules, raws, accepted, raw);
    }
  }
}
