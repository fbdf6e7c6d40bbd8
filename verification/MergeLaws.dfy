/**
 Row by row, which merge wrote what: over every step sequence, each row of the exception, state, posted and ledger
 tables is traced to the step that wrote it and to the history which that step read.
 */
module MergeLaws {
  import opened Sums
  import opened Contracts
  import opened Ledger
  import opened Lifecycle
  import opened History
  import opened Projection
  import opened Reconstruction
  import opened Pipeline
  import opened PipelineLaws

  // ---- exception rows ----

  /** Step k finds the transaction of the accepted event invalid. */
  ghost predicate RecordsAt(dateOf: Dating, steps: seq<Step>, k: nat, id: string) {
    && k < |steps| && id in After(dateOf, steps[..k]).accepted
    && ExceptsAt(dateOf, steps, k, After(dateOf, steps[..k]).accepted[id].transactionId)
  }

  ghost predicate LastRecord(dateOf: Dating, steps: seq<Step>, k: nat, id: string) {
    RecordsAt(dateOf, steps, k, id) && forall j: nat :: k < j < |steps| ==> !RecordsAt(dateOf, steps, j, id)
  }

  /** The row says what the history read by step k says about the event. */
  ghost predicate ExplainedAt(dateOf: Dating, steps: seq<Step>, k: nat, id: string, row: WindowException)
    requires RecordsAt(dateOf, steps, k, id)
  {
    var accepted := After(dateOf, steps[..k]).accepted;
    Explains(row, Rows(accepted, accepted[id].transactionId), accepted[id])
  }

  lemma RecordsInFront(dateOf: Dating, steps: seq<Step>, k: nat, id: string)
    requires k < |steps| - 1
    ensures RecordsAt(dateOf, steps, k, id) <==> RecordsAt(dateOf, steps[..|steps| - 1], k, id)
  {
    hide After, ExceptsAt;
    var front := steps[..|steps| - 1];
    assert steps[..k] == front[..k];
    SameExcept(dateOf, steps, front, k);
  }

  lemma SameExcept(dateOf: Dating, steps: seq<Step>, front: seq<Step>, k: nat)
    requires k < |front| <= |steps| && front == steps[..|front|]
    ensures forall t :: ExceptsAt(dateOf, steps, k, t) <==> ExceptsAt(dateOf, front, k, t)
  {
    hide After, Touched, HistoryInvalid, Enabled;
    assert steps[..k] == front[..k];
  }

  lemma LastStepRecords(dateOf: Dating, steps: seq<Step>, id: string)
    requires steps != [] && Invariant(After(dateOf, steps[..|steps| - 1]))
    ensures var before, after := After(dateOf, steps[..|steps| - 1]).exceptions, After(dateOf, steps).exceptions;
      && (id in after <==> id in before || RecordsAt(dateOf, steps, |steps| - 1, id))
      && (RecordsAt(dateOf, steps, |steps| - 1, id) ==> ExplainedAt(dateOf, steps, |steps| - 1, id, after[id]))
      && (id in before && !RecordsAt(dateOf, steps, |steps| - 1, id) ==> after[id] == before[id])
  {
    hide Invariant, Next, HistoryInvalid, NothingForeign, Paired, Touched, Explains, Reconstruct;
    hide StatesRight, ExceptionsRight, PostedRight, LedgerRight;
    var last := |steps| - 1;
    var before := After(dateOf, steps[..last]);
    FromInvariant(before, "");
    var step := steps[last];
    if step.Apply? && step.merge.ExceptionMerge? && Enabled(dateOf, before, step) {
      ExceptionMergeTable(dateOf, before, step.date, step.frame, id);
      ReconstructExceptionsAre(dateOf, before.accepted, step.date, step.frame, id);
    } else {
      ExceptionsStay(dateOf, before, step);
    }
  }

  /**
   An event has an exception row exactly if some exception merge found its transaction invalid, and the row holds what
   the last such merge read: the event, the kernel's reason and totals, and the largest authorized amount.
   */
  lemma {:induction false} ExceptionRowsAreExact(dateOf: Dating, steps: seq<Step>, id: string)
    ensures var exceptions := After(dateOf, steps).exceptions;
      && (id in exceptions <==> exists k: nat :: LastRecord(dateOf, steps, k, id))
      && forall k: nat :: LastRecord(dateOf, steps, k, id) ==>
           id in exceptions && ExplainedAt(dateOf, steps, k, id, exceptions[id])
  {
    hide Next, Invariant, RecordsAt, ExplainedAt, After;
    if steps == [] {
      NoExceptions(dateOf, id);
    } else {
      var last := |steps| - 1;
      var front := steps[..last];
      ExceptionRowsAreExact(dateOf, front, id);
      AlwaysInvariant(dateOf, front);
      LastStepRecords(dateOf, steps, id);
      forall k: nat | k < last
        ensures RecordsAt(dateOf, steps, k, id) <==> RecordsAt(dateOf, front, k, id)
        ensures RecordsAt(dateOf, steps, k, id) ==>
                  forall row :: ExplainedAt(dateOf, steps, k, id, row) <==> ExplainedAt(dateOf, front, k, id, row)
      {
        RecordsInFront(dateOf, steps, k, id);
        if RecordsAt(dateOf, steps, k, id) { SameExplanation(dateOf, steps, front, k, id); }
      }
      forall k: nat ensures RecordsAt(dateOf, steps, k, id) ==> k <= last { Bounded(dateOf, steps, k, id); }
      forall k: nat ensures RecordsAt(dateOf, front, k, id) ==> k < last { Bounded(dateOf, front, k, id); }
      if RecordsAt(dateOf, steps, last, id) {
        assert LastRecord(dateOf, steps, last, id);
      } else {
        assert forall k: nat :: LastRecord(dateOf, steps, k, id) <==> LastRecord(dateOf, front, k, id);
      }
    }
  }

  lemma NoExceptions(dateOf: Dating, id: string)
    ensures id !in After(dateOf, []).exceptions
    ensures forall k: nat :: !RecordsAt(dateOf, [], k, id)
  {
  }

  lemma Bounded(dateOf: Dating, steps: seq<Step>, k: nat, id: string)
    ensures RecordsAt(dateOf, steps, k, id) ==> k < |steps|
  {
  }

  lemma SameExplanation(dateOf: Dating, steps: seq<Step>, front: seq<Step>, k: nat, id: string)
    requires RecordsAt(dateOf, steps, k, id) && RecordsAt(dateOf, front, k, id)
    requires |front| <= |steps| && front == steps[..|front|]
    ensures forall row :: ExplainedAt(dateOf, steps, k, id, row) <==> ExplainedAt(dateOf, front, k, id, row)
  {
    hide After, Explains, ExceptsAt;
    assert k < |front| by { Bounded(dateOf, front, k, id); }
    assert steps[..k] == front[..k];
  }

  /** Right after an exception merge that touches an invalid transaction, every event of it has its row. */
  lemma ExceptionMergeWrites(dateOf: Dating, steps: seq<Step>, date: string, frame: seq<PaymentEvent>, t: string, e: PaymentEvent)
    requires Delivered(dateOf, After(dateOf, steps), date, frame)
    requires EventsSound(After(dateOf, steps).accepted)
    requires t in Touched(dateOf, After(dateOf, steps).accepted, date)
    requires HistoryInvalid(After(dateOf, steps).accepted, t) && e in EventsOf(After(dateOf, steps).accepted, t)
    ensures var lake := Next(dateOf, After(dateOf, steps), Apply(ExceptionMerge, date, frame));
      e.eventId in lake.exceptions && Explains(lake.exceptions[e.eventId], Rows(After(dateOf, steps).accepted, t), e)
  {
    hide Invariant, Next, HistoryInvalid, NothingForeign, Paired, Touched, Explains, Reconstruct, After;
    hide StatesRight, ExceptionsRight, PostedRight, LedgerRight;
    var lake := After(dateOf, steps);
    AlwaysInvariant(dateOf, steps);
    FromInvariant(lake, t);
    EventIsAccepted(lake.accepted, t, e);
    ExceptionMergeTable(dateOf, lake, date, frame, e.eventId);
    ReconstructExceptionsAre(dateOf, lake.accepted, date, frame, e.eventId);
  }

  /** Once exceptions are merged, the reason of an invalid transaction is the one in the store's rebuilt exception rows. */
  lemma ReasonsAgreeWithStore(dateOf: Dating, steps: seq<Step>, rules: PostingRules, r: ExceptionRow)
    requires Keyed(After(dateOf, steps).accepted)
    requires r in Project(After(dateOf, steps).accepted, rules).exceptions
    requires Carried(After(dateOf, steps), r.transactionId, ExceptionMerge)
    ensures var lake := After(dateOf, steps);
      && r.eventId in lake.exceptions
      && lake.exceptions[r.eventId].businessError == r.violation
      && lake.exceptions[r.eventId].event.transactionId == r.transactionId
  {
    hide After, Invariant, Project, Rows, Assess, StatesRight, PostedRight, LedgerRight, NothingForeign, Paired;
    var lake := After(dateOf, steps);
    AlwaysInvariant(dateOf, steps);
    FromInvariant(lake, r.transactionId);
    ProjectionIsExact(lake.accepted, rules);
    assert IsException(lake.accepted, r);
    assert lake.accepted[r.eventId] in EventsOf(lake.accepted, r.transactionId);
  }

  // ---- state rows ----

  ghost predicate LastStates(dateOf: Dating, steps: seq<Step>, k: nat, t: string) {
    StatesAt(dateOf, steps, k, t) && forall j: nat :: k < j < |steps| ==> !StatesAt(dateOf, steps, j, t)
  }

  lemma StatesInFront(dateOf: Dating, steps: seq<Step>, k: nat, t: string)
    requires k < |steps| - 1
    ensures StatesAt(dateOf, steps, k, t) <==> StatesAt(dateOf, steps[..|steps| - 1], k, t)
    ensures After(dateOf, steps[..k]) == After(dateOf, steps[..|steps| - 1][..k])
  {
    hide After, Touched, Projection.Valid, Enabled;
    assert steps[..k] == steps[..|steps| - 1][..k];
  }

  lemma LastStepState(dateOf: Dating, steps: seq<Step>, t: string)
    requires steps != [] && Invariant(After(dateOf, steps[..|steps| - 1]))
    ensures var front := steps[..|steps| - 1];
      var before, after := After(dateOf, front), After(dateOf, steps);
      && (StatesAt(dateOf, steps, |steps| - 1, t) ==>
            t in after.states && after.states[t] == StateOf(Rows(before.accepted, t)))
      && (!StatesAt(dateOf, steps, |steps| - 1, t) ==>
            (t in after.states <==> t in before.states) && (t in before.states ==> after.states[t] == before.states[t]))
  {
    hide Invariant, Next, NothingForeign, Paired, StatesRight, ExceptionsRight, PostedRight, LedgerRight, Touched;
    hide StateOf, Rows, Assess;
    var last := |steps| - 1;
    var before := After(dateOf, steps[..last]);
    FromInvariant(before, t);
    var step := steps[last];
    if step.Apply? && step.merge.StateMerge? && Enabled(dateOf, before, step) {
      OneStepStates(dateOf, before, step.date, step.frame, t);
    } else {
      StatesStay(dateOf, before, step);
    }
  }

  /** A state row is the kernel's state of the history that the last state merge to find it valid has read. */
  lemma {:induction false} StateRowsAreExact(dateOf: Dating, steps: seq<Step>, t: string)
    ensures var states := After(dateOf, steps).states;
      && (t in states <==> exists k: nat :: LastStates(dateOf, steps, k, t))
      && forall k: nat :: LastStates(dateOf, steps, k, t) ==>
           t in states && states[t] == StateOf(Rows(After(dateOf, steps[..k]).accepted, t))
  {
    hide Next, Invariant, StateOf, Rows, Touched, Projection.Valid, Enabled;
    if steps != [] {
      var last := |steps| - 1;
      var front := steps[..last];
      StateRowsAreExact(dateOf, front, t);
      AlwaysInvariant(dateOf, front);
      LastStepState(dateOf, steps, t);
      forall k: nat | k < last
        ensures StatesAt(dateOf, steps, k, t) <==> StatesAt(dateOf, front, k, t)
        ensures After(dateOf, steps[..k]) == After(dateOf, front[..k])
      {
        StatesInFront(dateOf, steps, k, t);
      }
      if StatesAt(dateOf, steps, last, t) {
        assert LastStates(dateOf, steps, last, t);
      } else {
        assert forall k: nat :: LastStates(dateOf, steps, k, t) <==> LastStates(dateOf, front, k, t);
      }
    }
  }

  // ---- postings and lines ----

  /** Step k is this posting merge and reads the monetary event, which has no exception row by then. */
  ghost predicate PostsAt(dateOf: Dating, steps: seq<Step>, merge: Merge, k: nat, id: string) {
    && k < |steps|
    && var before := After(dateOf, steps[..k]);
    && steps[k].Apply? && steps[k].merge == merge && Enabled(dateOf, before, steps[k])
    && id in before.accepted && IsMonetary(before.accepted[id])
    && before.accepted[id].transactionId in Touched(dateOf, before.accepted, steps[k].date)
    && id !in before.exceptions
  }

  lemma PostsInFront(dateOf: Dating, steps: seq<Step>, merge: Merge, k: nat, id: string)
    requires k < |steps| - 1
    ensures PostsAt(dateOf, steps, merge, k, id) <==> PostsAt(dateOf, steps[..|steps| - 1], merge, k, id)
  {
    hide After, Touched, Enabled;
    assert steps[..k] == steps[..|steps| - 1][..k];
  }

  lemma PostedOtherwise(dateOf: Dating, lake: Lake, step: Step)
    requires !(step.Apply? && step.merge.PostedMerge? && Enabled(dateOf, lake, step))
    ensures Next(dateOf, lake, step).posted == lake.posted
  {
    hide Enabled, Reconstruct, ToPost, PostingLines;
  }

  lemma LedgerOtherwise(dateOf: Dating, lake: Lake, step: Step)
    requires !(step.Apply? && step.merge.LedgerMerge? && Enabled(dateOf, lake, step))
    ensures Next(dateOf, lake, step).ledger == lake.ledger
  {
    hide Enabled, Reconstruct, ToPost, PostingLines;
  }

  lemma PostedMergeAdds(dateOf: Dating, lake: Lake, date: string, frame: seq<PaymentEvent>, id: string)
    requires Keyed(lake.accepted) && Delivered(dateOf, lake, date, frame)
    ensures id in Next(dateOf, lake, Apply(PostedMerge, date, frame)).posted
       <==> || id in lake.posted
            || (id in lake.accepted && IsMonetary(lake.accepted[id]) && id !in lake.exceptions
                && lake.accepted[id].transactionId in Touched(dateOf, lake.accepted, date))
  {
    hide Affected, Touched, ToPost;
    var events := ToPost(lake.exceptions, frame);
    ByEventIdIs(events);
    if id in lake.accepted { ToPostIs(dateOf, lake, date, frame, lake.accepted[id]); }
    if id in ByEventId(events) { ToPostIs(dateOf, lake, date, frame, ByEventId(events)[id]); }
  }

  /** An event is posted exactly if some posted merge read it while it had no exception row. */
  lemma {:induction false} PostedExactly(dateOf: Dating, steps: seq<Step>, id: string)
    ensures id in After(dateOf, steps).posted <==> exists k: nat :: PostsAt(dateOf, steps, PostedMerge, k, id)
    ensures id in After(dateOf, steps).posted ==>
              id in After(dateOf, steps).accepted && After(dateOf, steps).posted[id] == After(dateOf, steps).accepted[id]
  {
    hide Next, Invariant, Enabled, Touched, StatesRight, ExceptionsRight, PostedRight, LedgerRight, Paired;
    AlwaysInvariant(dateOf, steps);
    FromInvariant(After(dateOf, steps), "");
    if steps != [] {
      var last := |steps| - 1;
      var front := steps[..last];
      PostedExactly(dateOf, front, id);
      LastStepPosts(dateOf, steps, id);
      forall k: nat | k < last
        ensures PostsAt(dateOf, steps, PostedMerge, k, id) <==> PostsAt(dateOf, front, PostedMerge, k, id)
      {
        PostsInFront(dateOf, steps, PostedMerge, k, id);
      }
      if k: nat :| PostsAt(dateOf, steps, PostedMerge, k, id) { assert k < last || k == last; }
    }
  }

  lemma LastStepPosts(dateOf: Dating, steps: seq<Step>, id: string)
    requires steps != []
    ensures id in After(dateOf, steps).posted
       <==> id in After(dateOf, steps[..|steps| - 1]).posted || PostsAt(dateOf, steps, PostedMerge, |steps| - 1, id)
  {
    hide Next, Invariant, Touched, StatesRight, ExceptionsRight, PostedRight, LedgerRight, Paired, NothingForeign;
    var last := |steps| - 1;
    var before := After(dateOf, steps[..last]);
    AlwaysInvariant(dateOf, steps[..last]);
    FromInvariant(before, "");
    var step := steps[last];
    if step.Apply? && step.merge.PostedMerge? && Enabled(dateOf, before, step) {
      PostedMergeAdds(dateOf, before, step.date, step.frame, id);
    } else {
      PostedOtherwise(dateOf, before, step);
    }
  }

  lemma LedgerMergeAdds(dateOf: Dating, lake: Lake, date: string, frame: seq<PaymentEvent>, id: string)
    requires EventsSound(lake.accepted) && NothingForeign(lake) && Delivered(dateOf, lake, date, frame)
    ensures EntryId(id, 1) in Next(dateOf, lake, Apply(LedgerMerge, date, frame)).ledger
       <==> || EntryId(id, 1) in lake.ledger
            || (id in lake.accepted && IsMonetary(lake.accepted[id]) && id !in lake.exceptions
                && lake.accepted[id].transactionId in Touched(dateOf, lake.accepted, date))
  {
    hide Affected, Touched, ToPost, PostingLines, ByEntryId, EntryId, NothingForeign;
    var events, after := ToPost(lake.exceptions, frame), Next(dateOf, lake, Apply(LedgerMerge, date, frame)).ledger;
    LedgerMergeTable(dateOf, lake, date, frame);
    var k := EntryId(id, 1);
    if id in lake.accepted { ToPostIs(dateOf, lake, date, frame, lake.accepted[id]); }
    if k in after && k !in lake.ledger {
      assert LineOfOne(events, k, after[k]);
      var e :| e in events && IsMonetary(e) && after[k].line.entryId == k && (after[k] == DebitLine(e) || after[k] == CreditLine(e));
      EntryIdInjective(id, 1, e.eventId, 1);
      EntryIdInjective(id, 1, e.eventId, 2);
      ToPostIs(dateOf, lake, date, frame, e);
    }
  }

  lemma LastStepEnters(dateOf: Dating, steps: seq<Step>, id: string)
    requires steps != []
    ensures EntryId(id, 1) in After(dateOf, steps).ledger
       <==> || EntryId(id, 1) in After(dateOf, steps[..|steps| - 1]).ledger
            || PostsAt(dateOf, steps, LedgerMerge, |steps| - 1, id)
  {
    hide Next, Invariant, Touched, StatesRight, ExceptionsRight, PostedRight, LedgerRight, Paired, NothingForeign, EntryId;
    var last := |steps| - 1;
    var before := After(dateOf, steps[..last]);
    AlwaysInvariant(dateOf, steps[..last]);
    FromInvariant(before, "");
    var step := steps[last];
    if step.Apply? && step.merge.LedgerMerge? && Enabled(dateOf, before, step) {
      LedgerMergeAdds(dateOf, before, step.date, step.frame, id);
    } else {
      LedgerOtherwise(dateOf, before, step);
    }
  }

  /** An accepted event has its two lines exactly if some ledger merge read it while it had no exception row. */
  lemma {:induction false} EnteredExactly(dateOf: Dating, steps: seq<Step>, id: string)
    ensures EntryId(id, 1) in After(dateOf, steps).ledger <==> exists k: nat :: PostsAt(dateOf, steps, LedgerMerge, k, id)
    ensures id in After(dateOf, steps).accepted ==>
              (EntryId(id, 2) in After(dateOf, steps).ledger <==> EntryId(id, 1) in After(dateOf, steps).ledger)
  {
    hide Next, Invariant, Enabled, Touched, StatesRight, ExceptionsRight, PostedRight, LedgerRight, NothingForeign, EntryId;
    AlwaysInvariant(dateOf, steps);
    FromInvariant(After(dateOf, steps), "");
    if steps != [] {
      var last := |steps| - 1;
      var front := steps[..last];
      EnteredExactly(dateOf, front, id);
      LastStepEnters(dateOf, steps, id);
      forall k: nat | k < last
        ensures PostsAt(dateOf, steps, LedgerMerge, k, id) <==> PostsAt(dateOf, front, LedgerMerge, k, id)
      {
        PostsInFront(dateOf, steps, LedgerMerge, k, id);
      }
      if k: nat :| PostsAt(dateOf, steps, LedgerMerge, k, id) { assert k < last || k == last; }
    }
  }
}
