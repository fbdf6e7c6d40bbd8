/**
 What finance may see: over every interleaving of merges, with crashes, retries and repeated dates, a
 transaction whose events have all been carried through is shown exactly as a full rebuild would show it,
 or is hidden because some earlier snapshot of its history was invalid.
 */
module PipelineLaws {
  import opened Sums
  import opened Contracts
  import opened Ledger
  import opened Lifecycle
  import opened History
  import opened Projection
  import opened Reconstruction
  import opened Pipeline

  type Dating = PaymentEvent -> string

  // ---- the invariant, table by table ----

  ghost predicate EventsSound(accepted: Accepted) {
    Keyed(accepted) && forall id :: id in accepted ==> WellFormed(accepted[id])
  }

  /** The merge has read every event of the transaction. */
  ghost predicate Carried(lake: Lake, t: string, merge: Merge) {
    (t, merge) !in lake.unmerged
  }

  ghost predicate HistoryInvalid(accepted: Accepted, t: string)
    requires Keyed(accepted)
  {
    Rows(accepted, t) != [] && Assess(Rows(accepted, t)).Some?
  }

  ghost predicate StatesRight(lake: Lake, t: string)
    requires EventsSound(lake.accepted)
  {
    Carried(lake, t, StateMerge) && Projection.Valid(lake.accepted, t) ==>
      t in lake.states && lake.states[t] == StateOf(Rows(lake.accepted, t))
  }

  ghost predicate ExceptionsRight(lake: Lake, t: string)
    requires EventsSound(lake.accepted)
  {
    Carried(lake, t, ExceptionMerge) && HistoryInvalid(lake.accepted, t) ==>
      forall e :: e in EventsOf(lake.accepted, t) ==>
        e.eventId in lake.exceptions && Explains(lake.exceptions[e.eventId], Rows(lake.accepted, t), e)
  }

  ghost predicate PostedRight(lake: Lake, e: PaymentEvent) {
    Carried(lake, e.transactionId, PostedMerge) && !Excepted(lake, e.transactionId)
    && e.eventId in lake.accepted && lake.accepted[e.eventId] == e && IsMonetary(e) ==>
      e.eventId in lake.posted
  }

  ghost predicate LedgerRight(lake: Lake, e: PaymentEvent) {
    Carried(lake, e.transactionId, LedgerMerge) && !Excepted(lake, e.transactionId)
    && e.eventId in lake.accepted && lake.accepted[e.eventId] == e && IsMonetary(e) ==>
      DebitLine(e).line.entryId in lake.ledger && CreditLine(e).line.entryId in lake.ledger
  }

  /** No table ever holds a row that accepted history does not justify. */
  ghost predicate NothingForeign(lake: Lake) {
    && (forall t :: t in lake.states ==> t in TransactionSet(lake.accepted))
    && (forall id :: id in lake.exceptions ==>
          && id in lake.accepted && lake.exceptions[id].event == lake.accepted[id])
    && (forall id :: id in lake.posted ==>
          id in lake.accepted && lake.posted[id] == lake.accepted[id] && IsMonetary(lake.posted[id]))
    && (forall k :: k in lake.ledger ==> JustifiedLine(lake, k))
  }

  ghost predicate JustifiedLine(lake: Lake, k: string)
    requires k in lake.ledger
  {
    var l := lake.ledger[k];
    && l.line.entryId == k
    && l.line.eventId in lake.accepted
    && IsMonetary(lake.accepted[l.line.eventId])
    && (l == DebitLine(lake.accepted[l.line.eventId]) || l == CreditLine(lake.accepted[l.line.eventId]))
  }

  /** Both lines of an event are present, or neither. */
  ghost predicate Paired(lake: Lake) {
    forall id :: id in lake.accepted ==> (EntryId(id, 1) in lake.ledger <==> EntryId(id, 2) in lake.ledger)
  }

  ghost predicate Invariant(lake: Lake) {
    && EventsSound(lake.accepted)
    && NothingForeign(lake)
    && Paired(lake)
    && (forall t :: StatesRight(lake, t))
    && (forall t :: ExceptionsRight(lake, t))
    && (forall e :: PostedRight(lake, e))
    && (forall e :: LedgerRight(lake, e))
  }

  // ---- ingest ----

  /** A transaction that gains events is owed every merge; another one keeps its events. */
  lemma IngestUnchangedOrUnmerged(dateOf: Dating, lake: Lake, incoming: Accepted, t: string, merge: Merge)
    requires EventsSound(lake.accepted) && Deliverable(incoming)
    ensures var after := Next(dateOf, lake, Ingest(incoming));
      && EventsSound(after.accepted)
      && (forall id :: id in lake.accepted ==> id in after.accepted && after.accepted[id] == lake.accepted[id])
      && (Carried(after, t, merge) <==> Carried(lake, t, merge) && t !in Gaining(lake.accepted, incoming))
      && (t !in Gaining(lake.accepted, incoming) ==>
            && EventsOf(after.accepted, t) == EventsOf(lake.accepted, t)
            && Rows(after.accepted, t) == Rows(lake.accepted, t))
  {
    var after := Next(dateOf, lake, Ingest(incoming));
    if t !in Gaining(lake.accepted, incoming) {
      forall e | e in EventsOf(after.accepted, t) ensures e in EventsOf(lake.accepted, t) {
        var id :| id in after.accepted && after.accepted[id] == e && e.transactionId == t;
        assert id !in lake.accepted ==> t in Gaining(lake.accepted, incoming);
      }
      assert forall id :: id in lake.accepted && lake.accepted[id].transactionId == t ==>
          after.accepted[id] in EventsOf(after.accepted, t);
      assert EventsOf(after.accepted, t) == EventsOf(lake.accepted, t);
    }
  }

  lemma IngestKeepsRows(dateOf: Dating, lake: Lake, incoming: Accepted, t: string)
    requires EventsSound(lake.accepted) && Deliverable(incoming)
    requires StatesRight(lake, t) && ExceptionsRight(lake, t)
    ensures var after := Next(dateOf, lake, Ingest(incoming));
      EventsSound(after.accepted) && StatesRight(after, t) && ExceptionsRight(after, t)
  {
    hide Rows, Assess, StateOf, Deliverable, Carried, Next;
    IngestTables(dateOf, lake, incoming);
    IngestUnchangedOrUnmerged(dateOf, lake, incoming, t, StateMerge);
    IngestUnchangedOrUnmerged(dateOf, lake, incoming, t, ExceptionMerge);
  }

  lemma IngestKeepsPostings(dateOf: Dating, lake: Lake, incoming: Accepted, e: PaymentEvent)
    requires EventsSound(lake.accepted) && Deliverable(incoming)
    requires PostedRight(lake, e) && LedgerRight(lake, e)
    ensures var after := Next(dateOf, lake, Ingest(incoming));
      PostedRight(after, e) && LedgerRight(after, e)
  {
    hide Rows, DebitLine, CreditLine, Deliverable, Carried, Next, Excepted, EventsOf;
    IngestTables(dateOf, lake, incoming);
    IngestUnchangedOrUnmerged(dateOf, lake, incoming, e.transactionId, PostedMerge);
    IngestUnchangedOrUnmerged(dateOf, lake, incoming, e.transactionId, LedgerMerge);
    SameEvents(lake.accepted, Next(dateOf, lake, Ingest(incoming)).accepted, e);
  }

  lemma IngestForeign(before: Lake, after: Lake)
    requires NothingForeign(before)
    requires forall id :: id in before.accepted ==> id in after.accepted && after.accepted[id] == before.accepted[id]
    requires after.states == before.states && after.exceptions == before.exceptions
    requires after.posted == before.posted && after.ledger == before.ledger
    ensures NothingForeign(after)
  {
    hide DebitLine, CreditLine;
    TransactionsGrow(before.accepted, after.accepted);
    assert forall k :: k in before.ledger ==> JustifiedLine(before, k);
  }

  lemma IngestKeeps(dateOf: Dating, lake: Lake, incoming: Accepted)
    requires Invariant(lake) && Deliverable(incoming)
    ensures Invariant(Next(dateOf, lake, Ingest(incoming)))
  {
    hide Next, Deliverable, NothingForeign, Paired, StatesRight, ExceptionsRight, PostedRight, LedgerRight, EventsSound;
    var after := Next(dateOf, lake, Ingest(incoming));
    IngestTables(dateOf, lake, incoming);
    IngestUnchangedOrUnmerged(dateOf, lake, incoming, "", StateMerge);
    forall t ensures StatesRight(after, t) && ExceptionsRight(after, t) {
      IngestKeepsRows(dateOf, lake, incoming, t);
    }
    forall e ensures PostedRight(after, e) && LedgerRight(after, e) {
      IngestKeepsPostings(dateOf, lake, incoming, e);
    }
    IngestForeign(lake, after);
    PairedStays(lake, after);
  }

  lemma IngestTables(dateOf: Dating, lake: Lake, incoming: Accepted)
    requires Deliverable(incoming)
    ensures var after := Next(dateOf, lake, Ingest(incoming));
      && after.states == lake.states && after.exceptions == lake.exceptions
      && after.posted == lake.posted && after.ledger == lake.ledger
      && (forall t :: Excepted(after, t) == Excepted(lake, t))
  {
  }

  lemma SameEvents(before: Accepted, after: Accepted, e: PaymentEvent)
    requires Keyed(before) && Keyed(after)
    ensures EventsOf(after, e.transactionId) == EventsOf(before, e.transactionId) ==>
              (e.eventId in after && after[e.eventId] == e <==> e.eventId in before && before[e.eventId] == e)
  {
    assert e.eventId in after && after[e.eventId] == e ==> e in EventsOf(after, e.transactionId);
    assert e.eventId in before && before[e.eventId] == e ==> e in EventsOf(before, e.transactionId);
  }

  lemma TransactionsGrow(before: Accepted, after: Accepted)
    requires forall id :: id in before ==> id in after && after[id] == before[id]
    ensures TransactionSet(before) <= TransactionSet(after)
  {
  }

  /** Lines of an event that was not accepted before cannot be in the ledger. */
  lemma PairedStays(before: Lake, after: Lake)
    requires EventsSound(before.accepted) && NothingForeign(before) && Paired(before)
    requires after.ledger == before.ledger
    ensures Paired(after)
  {
    hide DebitLine, CreditLine;
    forall id | id in after.accepted ensures EntryId(id, 1) in after.ledger <==> EntryId(id, 2) in after.ledger {
      if id !in before.accepted {
        NoLineOfUnknown(before, id, 1);
        NoLineOfUnknown(before, id, 2);
      }
    }
  }

  lemma NoLineOfUnknown(lake: Lake, id: string, position: nat)
    requires EventsSound(lake.accepted) && NothingForeign(lake) && id !in lake.accepted
    ensures EntryId(id, position) !in lake.ledger
  {
    if EntryId(id, position) in lake.ledger {
      var k := EntryId(id, position);
      assert JustifiedLine(lake, k);
      var e := lake.accepted[lake.ledger[k].line.eventId];
      EntryIdInjective(id, position, e.eventId, 1);
      EntryIdInjective(id, position, e.eventId, 2);
    }
  }

  // ---- merges ----

  ghost predicate Delivered(dateOf: Dating, lake: Lake, date: string, frame: seq<PaymentEvent>) {
    Listing(frame, Affected(dateOf, lake.accepted, date)) && IdsUnique(frame)
  }

  lemma StateMergeRow(dateOf: Dating, lake: Lake, date: string, frame: seq<PaymentEvent>, t: string)
    requires EventsSound(lake.accepted) && Delivered(dateOf, lake, date, frame)
    requires StatesRight(lake, t) && ExceptionsRight(lake, t)
    ensures var after := Next(dateOf, lake, Apply(StateMerge, date, frame));
      && after.accepted == lake.accepted
      && StatesRight(after, t) && ExceptionsRight(after, t)
      && (t in after.states ==> t in lake.states || t in TransactionSet(lake.accepted))
  {
    hide Rows, Assess, StateOf, Carried, Reconstruct, ErrorAt, EventsOf, Affected;
    ReconstructIs(dateOf, lake.accepted, date, frame, t);
    RowsNonEmpty(lake.accepted, t);
    CarriedReads(dateOf, lake, date, StateMerge, frame, t);
  }

  /** A merge carries through the transactions that it touches, and no others. */
  lemma CarriedReads(dateOf: Dating, lake: Lake, date: string, merge: Merge, frame: seq<PaymentEvent>, t: string)
    requires Delivered(dateOf, lake, date, frame)
    ensures var after := Next(dateOf, lake, Apply(merge, date, frame));
      && after.accepted == lake.accepted
      && forall kind: Merge ::
           Carried(after, t, kind)
           <==> Carried(lake, t, kind) || (kind == merge && t in Touched(dateOf, lake.accepted, date))
  {
    hide Reconstruct, ByEventId, ByEntryId, ToPost, PostingLines, Affected, Touched;
  }

  lemma ReconstructExceptionsAre(dateOf: Dating, accepted: Accepted, date: string, frame: seq<PaymentEvent>, id: string)
    requires EventsSound(accepted)
    requires Listing(frame, Affected(dateOf, accepted, date)) && IdsUnique(frame)
    ensures id in Reconstruct(frame).exceptions
       <==> && id in accepted && accepted[id].transactionId in Touched(dateOf, accepted, date)
            && HistoryInvalid(accepted, accepted[id].transactionId)
    ensures id in Reconstruct(frame).exceptions ==>
              && Reconstruct(frame).exceptions[id].event == accepted[id]
              && Explains(Reconstruct(frame).exceptions[id], Rows(accepted, accepted[id].transactionId), accepted[id])
  {
    hide Rows, Assess, ErrorAt, Partition, ExceptionOf, Explains;
    var exceptions := Reconstruct(frame).exceptions;
    if id in exceptions {
      var e :| e in frame && ErrorAt(frame, e.transactionId).Some? && e.eventId == id;
      ReconstructIs(dateOf, accepted, date, frame, e.transactionId);
      ExceptionExplains(dateOf, accepted, date, frame, e);
    }
    if id in accepted && accepted[id].transactionId in Touched(dateOf, accepted, date)
       && HistoryInvalid(accepted, accepted[id].transactionId) {
      var e := accepted[id];
      ReconstructIs(dateOf, accepted, date, frame, e.transactionId);
      ExceptionExplains(dateOf, accepted, date, frame, e);
    }
  }

  lemma ExceptionRow(frame: seq<PaymentEvent>, e: PaymentEvent)
    requires IdsUnique(frame) && e in frame && ErrorAt(frame, e.transactionId).Some?
    ensures e.eventId in Reconstruct(frame).exceptions
    ensures Reconstruct(frame).exceptions[e.eventId]
         == ExceptionOf(Partition(frame, e.transactionId), e, ErrorAt(frame, e.transactionId).value)
  {
    hide Partition, ErrorAt, ExceptionOf;
  }

  lemma ExceptionExplains(dateOf: Dating, accepted: Accepted, date: string, frame: seq<PaymentEvent>, e: PaymentEvent)
    requires EventsSound(accepted)
    requires Listing(frame, Affected(dateOf, accepted, date)) && IdsUnique(frame)
    requires e in frame && ErrorAt(frame, e.transactionId).Some?
    ensures e.eventId in Reconstruct(frame).exceptions && HistoryInvalid(accepted, e.transactionId)
    ensures Explains(Reconstruct(frame).exceptions[e.eventId], Rows(accepted, e.transactionId), e)
    ensures Reconstruct(frame).exceptions[e.eventId].event == e
  {
    hide Partition, Rows, Assess, ErrorAt, ExceptionOf, Reconstruct, Affected, EventsOf;
    var t := e.transactionId;
    ReconstructIs(dateOf, accepted, date, frame, t);
    PartitionLists(dateOf, accepted, date, frame, t);
    ExceptionRow(frame, e);
    ExceptionAgrees(Partition(frame, t), Rows(accepted, t), EventsOf(accepted, t), e, ErrorAt(frame, t).value);
  }

  lemma ExceptedGrows(before: Lake, after: Lake, t: string)
    requires forall id :: id in before.exceptions ==>
               id in after.exceptions && after.exceptions[id].event.transactionId == before.exceptions[id].event.transactionId
    ensures Excepted(before, t) ==> Excepted(after, t)
  {
    if Excepted(before, t) {
      var id :| id in before.exceptions && before.exceptions[id].event.transactionId == t;
      assert id in after.exceptions && after.exceptions[id].event.transactionId == t;
    }
  }

  /** What an exception merge leaves in the exception table. */
  lemma ExceptionMergeTable(dateOf: Dating, lake: Lake, date: string, frame: seq<PaymentEvent>, id: string)
    requires EventsSound(lake.accepted) && NothingForeign(lake) && Delivered(dateOf, lake, date, frame)
    ensures var after := Next(dateOf, lake, Apply(ExceptionMerge, date, frame));
      && (id in after.exceptions <==> id in lake.exceptions || id in Reconstruct(frame).exceptions)
      && (id in after.exceptions ==>
            && id in lake.accepted && after.exceptions[id].event == lake.accepted[id]
            && after.exceptions[id]
               == if id in Reconstruct(frame).exceptions then Reconstruct(frame).exceptions[id] else lake.exceptions[id])
  {
    hide Reconstruct, Affected, JustifiedLine, Explains;
    ReconstructExceptionsAre(dateOf, lake.accepted, date, frame, id);
  }

  lemma ExceptionMergeRow(dateOf: Dating, lake: Lake, date: string, frame: seq<PaymentEvent>, t: string)
    requires EventsSound(lake.accepted) && NothingForeign(lake) && Delivered(dateOf, lake, date, frame)
    requires StatesRight(lake, t) && ExceptionsRight(lake, t)
    ensures var after := Next(dateOf, lake, Apply(ExceptionMerge, date, frame));
      && after.accepted == lake.accepted
      && StatesRight(after, t) && ExceptionsRight(after, t)
      && (Excepted(lake, t) ==> Excepted(after, t))
      && (Excepted(after, t) && !Excepted(lake, t) ==> HistoryInvalid(lake.accepted, t))
  {
    hide Rows, Assess, StateOf, Carried, Reconstruct, Affected, Touched, JustifiedLine, EventsOf, Explains;
    var after := Next(dateOf, lake, Apply(ExceptionMerge, date, frame));
    CarriedReads(dateOf, lake, date, ExceptionMerge, frame, t);
    forall id | id in lake.exceptions
      ensures id in after.exceptions
      ensures after.exceptions[id].event.transactionId == lake.exceptions[id].event.transactionId
    {
      ExceptionMergeTable(dateOf, lake, date, frame, id);
    }
    ExceptedGrows(lake, after, t);
    if Excepted(after, t) && !Excepted(lake, t) {
      var id :| id in after.exceptions && after.exceptions[id].event.transactionId == t;
      ExceptionMergeTable(dateOf, lake, date, frame, id);
      ReconstructExceptionsAre(dateOf, lake.accepted, date, frame, id);
    }
    if Carried(after, t, ExceptionMerge) && HistoryInvalid(lake.accepted, t) {
      forall e | e in EventsOf(lake.accepted, t)
        ensures e.eventId in after.exceptions && Explains(after.exceptions[e.eventId], Rows(lake.accepted, t), e)
      {
        EventIsAccepted(lake.accepted, t, e);
        ExceptionMergeTable(dateOf, lake, date, frame, e.eventId);
        ReconstructExceptionsAre(dateOf, lake.accepted, date, frame, e.eventId);
      }
    }
  }

  lemma EventIsAccepted(accepted: Accepted, t: string, e: PaymentEvent)
    requires Keyed(accepted) && e in EventsOf(accepted, t)
    ensures e.eventId in accepted && accepted[e.eventId] == e && e.transactionId == t
  {
  }

  // ---- postings ----

  lemma ToPostIs(dateOf: Dating, lake: Lake, date: string, frame: seq<PaymentEvent>, e: PaymentEvent)
    requires Keyed(lake.accepted) && Delivered(dateOf, lake, date, frame)
    ensures e in ToPost(lake.exceptions, frame)
       <==> && e.eventId in lake.accepted && lake.accepted[e.eventId] == e
            && e.transactionId in Touched(dateOf, lake.accepted, date)
            && e.eventId !in lake.exceptions && IsMonetary(e)
  {
    hide Touched;
    assert e in frame <==> e in Affected(dateOf, lake.accepted, date);
    assert e in Filter(frame, NotExcepted(lake.exceptions)) <==> e in frame && e.eventId !in lake.exceptions;
  }

  /** An event of a transaction without exception rows is itself not excepted. */
  lemma NotExceptedEvent(lake: Lake, e: PaymentEvent)
    requires NothingForeign(lake)
    requires e.eventId in lake.accepted && lake.accepted[e.eventId] == e
    ensures !Excepted(lake, e.transactionId) ==> e.eventId !in lake.exceptions
  {
    hide JustifiedLine;
    if e.eventId in lake.exceptions {
      assert lake.exceptions[e.eventId].event.transactionId == e.transactionId;
    }
  }

  lemma PostedMergeEvent(dateOf: Dating, lake: Lake, date: string, frame: seq<PaymentEvent>, e: PaymentEvent)
    requires EventsSound(lake.accepted) && NothingForeign(lake) && Delivered(dateOf, lake, date, frame)
    requires PostedRight(lake, e) && LedgerRight(lake, e)
    ensures var after := Next(dateOf, lake, Apply(PostedMerge, date, frame));
      && PostedRight(after, e) && LedgerRight(after, e)
  {
    hide Carried, Affected, Touched, JustifiedLine, ToPost, NothingForeign, DebitLine, CreditLine, Excepted;
    CarriedReads(dateOf, lake, date, PostedMerge, frame, e.transactionId);
    SameExceptions(lake, Next(dateOf, lake, Apply(PostedMerge, date, frame)), e.transactionId);
    ToPostIs(dateOf, lake, date, frame, e);
    ByEventIdIs(ToPost(lake.exceptions, frame));
    if e.eventId in lake.accepted && lake.accepted[e.eventId] == e {
      NotExceptedEvent(lake, e);
    }
  }

  lemma SameExceptions(before: Lake, after: Lake, t: string)
    requires before.exceptions == after.exceptions
    ensures Excepted(before, t) == Excepted(after, t)
  {
  }

  /** What a ledger merge adds. */
  ghost predicate LineOfOne(events: seq<PaymentEvent>, k: string, line: TimedLine) {
    exists e :: e in events && IsMonetary(e) && line.line.entryId == k && (line == DebitLine(e) || line == CreditLine(e))
  }

  lemma EntriesOf(events: seq<PaymentEvent>, entries: map<string, TimedLine>)
    requires entries == ByEntryId(PostingLines(events))
    requires forall e :: e in events ==> IsMonetary(e)
    ensures forall k :: k in entries ==> LineOfOne(events, k, entries[k])
    ensures forall e :: e in events ==> DebitLine(e).line.entryId in entries && CreditLine(e).line.entryId in entries
  {
    hide DebitLine, CreditLine, PostingLines;
    PostingLinesAre(events);
    ByEntryIdIs(PostingLines(events));
    assert forall e :: e in events ==> DebitLine(e) in PostingLines(events) && CreditLine(e) in PostingLines(events);
  }

  lemma LedgerMergeTable(dateOf: Dating, lake: Lake, date: string, frame: seq<PaymentEvent>)
    requires Keyed(lake.accepted) && Delivered(dateOf, lake, date, frame)
    ensures var after := Next(dateOf, lake, Apply(LedgerMerge, date, frame));
      && (forall k :: k in after.ledger && k !in lake.ledger ==> LineOfOne(ToPost(lake.exceptions, frame), k, after.ledger[k]))
      && (forall k :: k in lake.ledger ==> k in after.ledger && after.ledger[k] == lake.ledger[k])
      && (forall e :: e in ToPost(lake.exceptions, frame) ==>
            DebitLine(e).line.entryId in after.ledger && CreditLine(e).line.entryId in after.ledger)
  {
    hide DebitLine, CreditLine, Affected, Touched, PostingLines, LineOfOne;
    var events := ToPost(lake.exceptions, frame);
    var entries := ByEntryId(PostingLines(events));
    EntriesOf(events, entries);
    var after := Next(dateOf, lake, Apply(LedgerMerge, date, frame)).ledger;
    assert after == entries + lake.ledger;
    forall k | k in after && k !in lake.ledger ensures LineOfOne(events, k, after[k]) {
      assert k in entries && after[k] == entries[k];
    }
    assert forall k :: k in entries ==> k in after;
  }

  lemma LedgerMergeEvent(dateOf: Dating, lake: Lake, date: string, frame: seq<PaymentEvent>, e: PaymentEvent)
    requires EventsSound(lake.accepted) && NothingForeign(lake) && Delivered(dateOf, lake, date, frame)
    requires PostedRight(lake, e) && LedgerRight(lake, e)
    ensures var after := Next(dateOf, lake, Apply(LedgerMerge, date, frame));
      && PostedRight(after, e) && LedgerRight(after, e)
  {
    hide Carried, Affected, Touched, JustifiedLine, ToPost, NothingForeign, DebitLine, CreditLine, Excepted, PostingLines, ByEntryId;
    CarriedReads(dateOf, lake, date, LedgerMerge, frame, e.transactionId);
    SameExceptions(lake, Next(dateOf, lake, Apply(LedgerMerge, date, frame)), e.transactionId);
    ToPostIs(dateOf, lake, date, frame, e);
    LedgerMergeTable(dateOf, lake, date, frame);
    if e.eventId in lake.accepted && lake.accepted[e.eventId] == e {
      NotExceptedEvent(lake, e);
    }
  }

  // ---- one step, the whole invariant ----

  lemma StateMergeKeeps(dateOf: Dating, lake: Lake, date: string, frame: seq<PaymentEvent>)
    requires Invariant(lake) && Delivered(dateOf, lake, date, frame)
    ensures Invariant(Next(dateOf, lake, Apply(StateMerge, date, frame)))
  {
    hide Reconstruct, Rows, Assess, StateOf, Affected, Carried, Excepted, StatesRight, ExceptionsRight, JustifiedLine;
    var after := Next(dateOf, lake, Apply(StateMerge, date, frame));
    forall t
      ensures StatesRight(after, t) && ExceptionsRight(after, t)
      ensures t in after.states ==> t in TransactionSet(after.accepted)
    {
      StateMergeRow(dateOf, lake, date, frame, t);
    }
    forall e ensures PostedRight(after, e) && LedgerRight(after, e) {
      assert PostedRight(lake, e) && LedgerRight(lake, e);
      CarriedReads(dateOf, lake, date, StateMerge, frame, e.transactionId);
      SameExceptions(lake, after, e.transactionId);
    }
    SameLedger(lake, after);
  }

  lemma SameLedger(before: Lake, after: Lake)
    requires before.accepted == after.accepted && before.ledger == after.ledger
    ensures forall k :: k in before.ledger && JustifiedLine(before, k) ==> JustifiedLine(after, k)
  {
  }

  lemma ExceptionMergeKeeps(dateOf: Dating, lake: Lake, date: string, frame: seq<PaymentEvent>)
    requires Invariant(lake) && Delivered(dateOf, lake, date, frame)
    ensures Invariant(Next(dateOf, lake, Apply(ExceptionMerge, date, frame)))
  {
    hide Reconstruct, Rows, Assess, StateOf, Affected, Carried, Excepted, StatesRight, ExceptionsRight, JustifiedLine;
    var after := Next(dateOf, lake, Apply(ExceptionMerge, date, frame));
    forall t ensures StatesRight(after, t) && ExceptionsRight(after, t) {
      ExceptionMergeRow(dateOf, lake, date, frame, t);
    }
    forall e ensures PostedRight(after, e) && LedgerRight(after, e) {
      assert PostedRight(lake, e) && LedgerRight(lake, e);
      CarriedReads(dateOf, lake, date, ExceptionMerge, frame, e.transactionId);
      ExceptionMergeRow(dateOf, lake, date, frame, e.transactionId);
    }
    forall id | id in after.exceptions
      ensures id in after.accepted && after.exceptions[id].event == after.accepted[id]
    {
      ExceptionMergeTable(dateOf, lake, date, frame, id);
    }
    SameLedger(lake, after);
  }

  lemma PostedMergeKeeps(dateOf: Dating, lake: Lake, date: string, frame: seq<PaymentEvent>)
    requires Invariant(lake) && Delivered(dateOf, lake, date, frame)
    ensures Invariant(Next(dateOf, lake, Apply(PostedMerge, date, frame)))
  {
    hide Reconstruct, Rows, Assess, StateOf, Affected, Carried, Excepted, JustifiedLine, ToPost, PostedRight, LedgerRight;
    var after := Next(dateOf, lake, Apply(PostedMerge, date, frame));
    forall t ensures StatesRight(after, t) && ExceptionsRight(after, t) {
      assert StatesRight(lake, t) && ExceptionsRight(lake, t);
      CarriedReads(dateOf, lake, date, PostedMerge, frame, t);
    }
    forall e ensures PostedRight(after, e) && LedgerRight(after, e) {
      PostedMergeEvent(dateOf, lake, date, frame, e);
    }
    PostedMergeTable(dateOf, lake, date, frame);
    SameLedger(lake, after);
  }

  lemma PostedMergeTable(dateOf: Dating, lake: Lake, date: string, frame: seq<PaymentEvent>)
    requires EventsSound(lake.accepted) && NothingForeign(lake) && Delivered(dateOf, lake, date, frame)
    ensures var after := Next(dateOf, lake, Apply(PostedMerge, date, frame));
      forall id :: id in after.posted ==>
        id in after.accepted && after.posted[id] == after.accepted[id] && IsMonetary(after.posted[id])
  {
    hide Affected, JustifiedLine, ToPost, Touched;
    var after := Next(dateOf, lake, Apply(PostedMerge, date, frame));
    ByEventIdIs(ToPost(lake.exceptions, frame));
    forall id | id in after.posted
      ensures id in after.accepted && after.posted[id] == after.accepted[id] && IsMonetary(after.posted[id])
    {
      if id !in lake.posted {
        ToPostIs(dateOf, lake, date, frame, after.posted[id]);
      }
    }
  }

  lemma LedgerMergeKeeps(dateOf: Dating, lake: Lake, date: string, frame: seq<PaymentEvent>)
    requires Invariant(lake) && Delivered(dateOf, lake, date, frame)
    ensures Invariant(Next(dateOf, lake, Apply(LedgerMerge, date, frame)))
  {
    hide Reconstruct, Rows, Assess, StateOf, Affected, Carried, Excepted, JustifiedLine, ToPost, PostedRight, LedgerRight, Paired;
    hide PostingLines, ByEntryId;
    var after := Next(dateOf, lake, Apply(LedgerMerge, date, frame));
    forall t ensures StatesRight(after, t) && ExceptionsRight(after, t) {
      assert StatesRight(lake, t) && ExceptionsRight(lake, t);
      CarriedReads(dateOf, lake, date, LedgerMerge, frame, t);
    }
    forall e ensures PostedRight(after, e) && LedgerRight(after, e) {
      LedgerMergeEvent(dateOf, lake, date, frame, e);
    }
    forall k | k in after.ledger ensures JustifiedLine(after, k) {
      LedgerMergeJustified(dateOf, lake, date, frame, k);
    }
    LedgerMergePaired(dateOf, lake, date, frame);
  }

  lemma LedgerMergeJustified(dateOf: Dating, lake: Lake, date: string, frame: seq<PaymentEvent>, k: string)
    requires EventsSound(lake.accepted) && NothingForeign(lake) && Delivered(dateOf, lake, date, frame)
    requires k in Next(dateOf, lake, Apply(LedgerMerge, date, frame)).ledger
    ensures JustifiedLine(Next(dateOf, lake, Apply(LedgerMerge, date, frame)), k)
  {
    hide Affected, ToPost, PostingLines, ByEntryId, EntryId;
    var after := Next(dateOf, lake, Apply(LedgerMerge, date, frame));
    LedgerMergeTable(dateOf, lake, date, frame);
    if k in lake.ledger {
      assert JustifiedLine(lake, k);
    } else {
      assert LineOfOne(ToPost(lake.exceptions, frame), k, after.ledger[k]);
      var e :| e in ToPost(lake.exceptions, frame) && IsMonetary(e) && after.ledger[k].line.entryId == k
        && (after.ledger[k] == DebitLine(e) || after.ledger[k] == CreditLine(e));
      ToPostIs(dateOf, lake, date, frame, e);
      assert after.ledger[k].line.eventId == e.eventId;
    }
  }

  /** A ledger merge that adds one line of an event adds the other one too. */
  lemma LedgerMergeSide(dateOf: Dating, lake: Lake, date: string, frame: seq<PaymentEvent>, id: string, i: nat, j: nat)
    requires Invariant(lake) && Delivered(dateOf, lake, date, frame)
    requires (i == 1 && j == 2) || (i == 2 && j == 1)
    requires id in lake.accepted
    requires EntryId(id, i) in Next(dateOf, lake, Apply(LedgerMerge, date, frame)).ledger
    ensures EntryId(id, j) in Next(dateOf, lake, Apply(LedgerMerge, date, frame)).ledger
  {
    hide Affected, ToPost, PostingLines, ByEntryId, StatesRight, ExceptionsRight, PostedRight, LedgerRight, JustifiedLine;
    var after := Next(dateOf, lake, Apply(LedgerMerge, date, frame));
    LedgerMergeTable(dateOf, lake, date, frame);
    var k := EntryId(id, i);
    if k !in lake.ledger {
      var e :| e in ToPost(lake.exceptions, frame) && IsMonetary(e) && after.ledger[k].line.entryId == k
        && (after.ledger[k] == DebitLine(e) || after.ledger[k] == CreditLine(e));
      EntryIdInjective(id, i, e.eventId, 1);
      EntryIdInjective(id, i, e.eventId, 2);
      assert DebitLine(e).line.entryId == EntryId(e.eventId, 1) && CreditLine(e).line.entryId == EntryId(e.eventId, 2);
    }
  }

  lemma LedgerMergePaired(dateOf: Dating, lake: Lake, date: string, frame: seq<PaymentEvent>)
    requires Invariant(lake) && Delivered(dateOf, lake, date, frame)
    ensures Paired(Next(dateOf, lake, Apply(LedgerMerge, date, frame)))
  {
    hide Affected, Reconstruct, ToPost, PostingLines, ByEntryId, Invariant, EntryId;
    var after := Next(dateOf, lake, Apply(LedgerMerge, date, frame));
    forall id | id in after.accepted ensures EntryId(id, 1) in after.ledger <==> EntryId(id, 2) in after.ledger {
      if EntryId(id, 1) in after.ledger { LedgerMergeSide(dateOf, lake, date, frame, id, 1, 2); }
      if EntryId(id, 2) in after.ledger { LedgerMergeSide(dateOf, lake, date, frame, id, 2, 1); }
    }
  }

  lemma StepKeeps(dateOf: Dating, lake: Lake, step: Step)
    requires Invariant(lake)
    ensures Invariant(Next(dateOf, lake, step))
  {
    hide Invariant;
    if Enabled(dateOf, lake, step) {
      match step
      case Ingest(incoming) => IngestKeeps(dateOf, lake, incoming);
      case Apply(StateMerge, date, frame) => StateMergeKeeps(dateOf, lake, date, frame);
      case Apply(ExceptionMerge, date, frame) => ExceptionMergeKeeps(dateOf, lake, date, frame);
      case Apply(PostedMerge, date, frame) => PostedMergeKeeps(dateOf, lake, date, frame);
      case Apply(LedgerMerge, date, frame) => LedgerMergeKeeps(dateOf, lake, date, frame);
    }
  }

  lemma EmptyLakeInvariant()
    ensures Invariant(EMPTY_LAKE)
  {
    forall t ensures Rows(map[], t) == [] {
      RowsNonEmpty(map[], t);
    }
  }

  /** Every step sequence, however interleaved, repeated or cut short, keeps the invariant. */
  lemma {:induction false} AlwaysInvariant(dateOf: Dating, steps: seq<Step>)
    ensures Invariant(After(dateOf, steps))
  {
    hide Invariant, Next;
    if steps == [] {
      EmptyLakeInvariant();
    } else {
      AlwaysInvariant(dateOf, steps[..|steps| - 1]);
      StepKeeps(dateOf, After(dateOf, steps[..|steps| - 1]), steps[|steps| - 1]);
    }
  }

  // ---- why a transaction is hidden ----

  /** Step k merges exceptions for a date on which the transaction was touched, its history then being invalid. */
  ghost predicate ExceptsAt(dateOf: Dating, steps: seq<Step>, k: nat, t: string) {
    && k < |steps|
    && var before := After(dateOf, steps[..k]);
    && Keyed(before.accepted)
    && steps[k].Apply? && steps[k].merge.ExceptionMerge? && Enabled(dateOf, before, steps[k])
    && t in Touched(dateOf, before.accepted, steps[k].date)
    && HistoryInvalid(before.accepted, t)
  }

  lemma ExceptionsStay(dateOf: Dating, lake: Lake, step: Step)
    requires !(step.Apply? && step.merge.ExceptionMerge? && Enabled(dateOf, lake, step))
    ensures Next(dateOf, lake, step).exceptions == lake.exceptions
  {
    hide Enabled, Reconstruct, ToPost, PostingLines;
  }

  lemma FromInvariant(lake: Lake, t: string)
    requires Invariant(lake)
    ensures EventsSound(lake.accepted) && Keyed(lake.accepted) && NothingForeign(lake) && Paired(lake)
    ensures StatesRight(lake, t) && ExceptionsRight(lake, t)
    ensures forall e :: PostedRight(lake, e) && LedgerRight(lake, e)
  {
    hide StatesRight, ExceptionsRight, PostedRight, LedgerRight, NothingForeign, Paired;
  }

  lemma NothingExcepted(t: string)
    ensures !Excepted(EMPTY_LAKE, t)
  {
  }

  /** The exception rows of a transaction appear at exactly such a step, and never disappear. */
  lemma OneStepExcepts(dateOf: Dating, lake: Lake, date: string, frame: seq<PaymentEvent>, t: string)
    requires EventsSound(lake.accepted) && NothingForeign(lake) && Delivered(dateOf, lake, date, frame)
    ensures var after := Next(dateOf, lake, Apply(ExceptionMerge, date, frame));
      Excepted(after, t) <==>
        Excepted(lake, t) || (t in Touched(dateOf, lake.accepted, date) && HistoryInvalid(lake.accepted, t))
  {
    hide Rows, Assess, Reconstruct, Affected, Touched, JustifiedLine, EventsOf;
    var after := Next(dateOf, lake, Apply(ExceptionMerge, date, frame));
    forall id | id in lake.exceptions
      ensures id in after.exceptions
      ensures after.exceptions[id].event.transactionId == lake.exceptions[id].event.transactionId
    {
      ExceptionMergeTable(dateOf, lake, date, frame, id);
    }
    ExceptedGrows(lake, after, t);
    if Excepted(after, t) && !Excepted(lake, t) {
      var id :| id in after.exceptions && after.exceptions[id].event.transactionId == t;
      ExceptionMergeTable(dateOf, lake, date, frame, id);
      ReconstructExceptionsAre(dateOf, lake.accepted, date, frame, id);
    }
    if t in Touched(dateOf, lake.accepted, date) && HistoryInvalid(lake.accepted, t) {
      var e := Rows(lake.accepted, t)[0];
      RowsAreEvents(lake.accepted, t, e);
      ExceptionMergeTable(dateOf, lake, date, frame, e.eventId);
      ReconstructExceptionsAre(dateOf, lake.accepted, date, frame, e.eventId);
    }
  }

  lemma StepExcepts(dateOf: Dating, steps: seq<Step>, t: string)
    requires steps != []
    requires Invariant(After(dateOf, steps[..|steps| - 1]))
    ensures Excepted(After(dateOf, steps), t)
       <==> Excepted(After(dateOf, steps[..|steps| - 1]), t) || ExceptsAt(dateOf, steps, |steps| - 1, t)
  {
    hide Invariant, Next, Excepted, HistoryInvalid, NothingForeign, Paired, Touched;
    hide StatesRight, ExceptionsRight, PostedRight, LedgerRight;
    var last := |steps| - 1;
    var before := After(dateOf, steps[..last]);
    FromInvariant(before, t);
    if steps[last].Apply? && steps[last].merge.ExceptionMerge? && Enabled(dateOf, before, steps[last]) {
      OneStepExcepts(dateOf, before, steps[last].date, steps[last].frame, t);
    } else {
      ExceptionsStay(dateOf, before, steps[last]);
      SameExceptions(before, After(dateOf, steps), t);
    }
  }

  /** A transaction has exception rows exactly if some exception merge found its history invalid. */
  lemma {:induction false} ExceptedExactly(dateOf: Dating, steps: seq<Step>, t: string)
    ensures Excepted(After(dateOf, steps), t) <==> exists k: nat :: ExceptsAt(dateOf, steps, k, t)
  {
    hide Invariant, Next, Excepted, HistoryInvalid;
    if steps == [] {
      NothingExcepted(t);
    } else {
      var front := steps[..|steps| - 1];
      ExceptedExactly(dateOf, front, t);
      AlwaysInvariant(dateOf, front);
      StepExcepts(dateOf, steps, t);
      forall k: nat | k < |front| ensures ExceptsAt(dateOf, steps, k, t) <==> ExceptsAt(dateOf, front, k, t) {
        assert steps[..k] == front[..k];
      }
      if k: nat :| ExceptsAt(dateOf, steps, k, t) {
        assert k < |front| || k == |steps| - 1;
      }
    }
  }

  // ---- why a transaction has a state row, and which ----

  /** Step k merges states for a date on which the transaction was touched, its history then being valid. */
  ghost predicate StatesAt(dateOf: Dating, steps: seq<Step>, k: nat, t: string) {
    && k < |steps|
    && var before := After(dateOf, steps[..k]);
    && Keyed(before.accepted)
    && steps[k].Apply? && steps[k].merge.StateMerge? && Enabled(dateOf, before, steps[k])
    && t in Touched(dateOf, before.accepted, steps[k].date)
    && Projection.Valid(before.accepted, t)
  }

  lemma StatesStay(dateOf: Dating, lake: Lake, step: Step)
    requires !(step.Apply? && step.merge.StateMerge? && Enabled(dateOf, lake, step))
    ensures Next(dateOf, lake, step).states == lake.states
  {
    hide Enabled, Reconstruct, ToPost, PostingLines;
  }

  lemma OneStepStates(dateOf: Dating, lake: Lake, date: string, frame: seq<PaymentEvent>, t: string)
    requires EventsSound(lake.accepted) && Delivered(dateOf, lake, date, frame)
    ensures var after := Next(dateOf, lake, Apply(StateMerge, date, frame));
      && (t in after.states <==>
            t in lake.states || (t in Touched(dateOf, lake.accepted, date) && Projection.Valid(lake.accepted, t)))
      && (t in after.states ==>
            after.states[t] == if t in Touched(dateOf, lake.accepted, date) && Projection.Valid(lake.accepted, t)
                               then StateOf(Rows(lake.accepted, t)) else lake.states[t])
  {
    hide Rows, Assess, StateOf, Reconstruct, ErrorAt, EventsOf, Affected, Touched;
    ReconstructIs(dateOf, lake.accepted, date, frame, t);
  }

  /** A transaction has a state row exactly if some state merge found its history valid. */
  lemma {:induction false} StatedExactly(dateOf: Dating, steps: seq<Step>, t: string)
    ensures t in After(dateOf, steps).states <==> exists k: nat :: StatesAt(dateOf, steps, k, t)
  {
    hide Invariant, Next, Projection.Valid, Touched, Enabled;
    if steps != [] {
      var last := |steps| - 1;
      var front := steps[..last];
      StatedExactly(dateOf, front, t);
      AlwaysInvariant(dateOf, front);
      LastStepStates(dateOf, steps, t);
      forall k: nat | k < |front| ensures StatesAt(dateOf, steps, k, t) <==> StatesAt(dateOf, front, k, t) {
        assert steps[..k] == front[..k];
      }
      if k: nat :| StatesAt(dateOf, steps, k, t) {
        assert k < |front| || k == last;
      }
    }
  }

  lemma LastStepStates(dateOf: Dating, steps: seq<Step>, t: string)
    requires steps != [] && Invariant(After(dateOf, steps[..|steps| - 1]))
    ensures t in After(dateOf, steps).states
       <==> t in After(dateOf, steps[..|steps| - 1]).states || StatesAt(dateOf, steps, |steps| - 1, t)
  {
    hide Invariant, Next, NothingForeign, Paired, StatesRight, ExceptionsRight, PostedRight, LedgerRight, Touched, Projection.Valid;
    var last := |steps| - 1;
    var before := After(dateOf, steps[..last]);
    FromInvariant(before, t);
    if steps[last].Apply? && steps[last].merge.StateMerge? && Enabled(dateOf, before, steps[last]) {
      OneStepStates(dateOf, before, steps[last].date, steps[last].frame, t);
    } else {
      StatesStay(dateOf, before, steps[last]);
    }
  }

  /** A state row is that of as many events as it has versions; unread events put it behind. */
  ghost predicate Behind(lake: Lake, t: string) {
    t in lake.states ==>
      && lake.states[t].transactionId == t
      && lake.states[t].currentVersion <= |EventsOf(lake.accepted, t)|
      && (!Carried(lake, t, StateMerge) ==> lake.states[t].currentVersion < |EventsOf(lake.accepted, t)|)
  }

  lemma GainingGrows(lake: Lake, incoming: Accepted, t: string)
    requires EventsSound(lake.accepted) && Deliverable(incoming)
    ensures |EventsOf(lake.accepted, t)| <= |EventsOf(incoming + lake.accepted, t)|
    ensures t in Gaining(lake.accepted, incoming) ==> |EventsOf(lake.accepted, t)| < |EventsOf(incoming + lake.accepted, t)|
  {
    hide WellFormed;
    var all := incoming + lake.accepted;
    var before, after := EventsOf(lake.accepted, t), EventsOf(all, t);
    forall e | e in before ensures e in after {
      var id :| id in lake.accepted && lake.accepted[id] == e && e.transactionId == t;
      assert id in all && all[id] == e;
    }
    Subset(before, after);
    if t in Gaining(lake.accepted, incoming) {
      var id :| id in incoming && id !in lake.accepted && incoming[id].transactionId == t;
      assert id in all && all[id] == incoming[id];
      assert incoming[id] in after && incoming[id] !in before;
      Subset(before, after - {incoming[id]});
    }
  }

  lemma Subset<T(!new)>(small: set<T>, large: set<T>)
    requires small <= large
    ensures |small| <= |large|
  {
    assert large == small + (large - small);
  }

  lemma IngestBehind(dateOf: Dating, lake: Lake, incoming: Accepted, t: string)
    requires EventsSound(lake.accepted) && Deliverable(incoming) && Behind(lake, t)
    ensures Behind(Next(dateOf, lake, Ingest(incoming)), t)
  {
    hide Deliverable, EventsOf, Carried, Next;
    IngestTables(dateOf, lake, incoming);
    GainingGrows(lake, incoming, t);
    IngestUnchangedOrUnmerged(dateOf, lake, incoming, t, StateMerge);
    IngestAccepts(dateOf, lake, incoming);
  }

  lemma IngestAccepts(dateOf: Dating, lake: Lake, incoming: Accepted)
    requires Deliverable(incoming)
    ensures Next(dateOf, lake, Ingest(incoming)).accepted == incoming + lake.accepted
  {
  }

  lemma MergeBehind(dateOf: Dating, lake: Lake, merge: Merge, date: string, frame: seq<PaymentEvent>, t: string)
    requires EventsSound(lake.accepted) && Delivered(dateOf, lake, date, frame) && Behind(lake, t)
    ensures Behind(Next(dateOf, lake, Apply(merge, date, frame)), t)
  {
    hide EventsOf, Carried, Next, Rows, StateOf, Projection.Valid, Touched;
    CarriedReads(dateOf, lake, date, merge, frame, t);
    if merge == StateMerge {
      OneStepStates(dateOf, lake, date, frame, t);
      if Projection.Valid(lake.accepted, t) { StateVersion(lake.accepted, t); }
    } else {
      StatesStay(dateOf, lake, Apply(merge, date, frame));
    }
  }

  lemma {:induction false} AlwaysBehind(dateOf: Dating, steps: seq<Step>, t: string)
    ensures Behind(After(dateOf, steps), t)
  {
    hide Behind, Next, Invariant;
    if steps == [] {
      NothingBehind(t);
    } else {
      var front, last := steps[..|steps| - 1], steps[|steps| - 1];
      AlwaysBehind(dateOf, front, t);
      AlwaysInvariant(dateOf, front);
      FromInvariant(After(dateOf, front), t);
      StepBehind(dateOf, After(dateOf, front), last, t);
    }
  }

  lemma NothingBehind(t: string)
    ensures Behind(EMPTY_LAKE, t)
  {
  }

  lemma StepBehind(dateOf: Dating, lake: Lake, step: Step, t: string)
    requires EventsSound(lake.accepted) && Behind(lake, t)
    ensures Behind(Next(dateOf, lake, step), t)
  {
    hide Behind, EventsSound;
    if Enabled(dateOf, lake, step) {
      match step
      case Ingest(incoming) => IngestBehind(dateOf, lake, incoming, t);
      case Apply(merge, date, frame) => MergeBehind(dateOf, lake, merge, date, frame, t);
    }
  }
}
