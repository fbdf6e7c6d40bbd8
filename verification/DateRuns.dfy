/**
 Completed, non-overlapping date runs.  A run ingests what was filed under its date and then merges for the
 transactions touched on that date by converted event times; the two dates of an event need not agree.  What
 the finance views then show is characterised exactly, for every transaction.
 */
module DateRuns {
  import opened Sums
  import opened Ordering
  import opened Contracts
  import opened Ledger
  import opened Lifecycle
  import opened History
  import opened Projection
  import opened Reconstruction
  import opened Pipeline
  import opened PipelineLaws
  import opened FinanceView

  /** One date's workflow: its ingestion and its four merges, each over the rows as they then are. */
  datatype DateRun = DateRun(
    date: string,
    incoming: Accepted,
    forStates: seq<PaymentEvent>,
    forExceptions: seq<PaymentEvent>,
    forPosted: seq<PaymentEvent>,
    forLedger: seq<PaymentEvent>
  )

  function StepsOf(run: DateRun): seq<Step> {
    [Ingest(run.incoming), Apply(StateMerge, run.date, run.forStates),
     Apply(ExceptionMerge, run.date, run.forExceptions), Apply(PostedMerge, run.date, run.forPosted),
     Apply(LedgerMerge, run.date, run.forLedger)]
  }

  /** The runs one after another. */
  function InSequence(runs: seq<DateRun>): seq<Step> {
    if runs == [] then [] else InSequence(runs[..|runs| - 1]) + StepsOf(runs[|runs| - 1])
  }

  /** Every step really happens. */
  ghost predicate AllEnabled(dateOf: Dating, steps: seq<Step>) {
    forall k :: 0 <= k < |steps| ==> Enabled(dateOf, After(dateOf, steps[..k]), steps[k])
  }

  // ---- what deliveries and dates alone decide ----

  /** Everything delivered, the first delivery of an event id winning. */
  function DeliveredBy(runs: seq<DateRun>): Accepted {
    if runs == [] then map[] else runs[|runs| - 1].incoming + DeliveredBy(runs[..|runs| - 1])
  }

  /**
   The last run touches the transaction by its converted dates, or it brings nothing for it and it was
   settled before.
   */
  ghost predicate SettledBy(dateOf: Dating, runs: seq<DateRun>, t: string) {
    runs == [] ||
    var front, last := runs[..|runs| - 1], runs[|runs| - 1];
    || t in Touched(dateOf, DeliveredBy(runs), last.date)
    || (t !in Gaining(DeliveredBy(front), last.incoming) && SettledBy(dateOf, front, t))
  }

  /** Every event that a run is the first to deliver has the converted date of that run or of a later one. */
  ghost predicate Covered(dateOf: Dating, runs: seq<DateRun>) {
    forall i, id :: 0 <= i < |runs| && id in runs[i].incoming && id !in DeliveredBy(runs[..i]) ==>
      exists j :: i <= j < |runs| && runs[j].date == dateOf(runs[i].incoming[id])
  }

  // ---- the steps of a run ----

  lemma EnabledStep(dateOf: Dating, steps: seq<Step>, step: Step)
    ensures After(dateOf, steps + [step]) == Next(dateOf, After(dateOf, steps), step)
    ensures AllEnabled(dateOf, steps + [step]) <==> AllEnabled(dateOf, steps) && Enabled(dateOf, After(dateOf, steps), step)
  {
    hide Next, Enabled;
    var all := steps + [step];
    assert all[..|steps|] == steps;
    assert forall k :: 0 <= k < |steps| ==> all[..k] == steps[..k] && all[k] == steps[k];
    if AllEnabled(dateOf, all) {
      forall k | 0 <= k < |steps| ensures Enabled(dateOf, After(dateOf, steps[..k]), steps[k]) {
        assert Enabled(dateOf, After(dateOf, all[..k]), all[k]);
      }
      assert Enabled(dateOf, After(dateOf, all[..|steps|]), all[|steps|]);
    }
  }

  /** A merge of a run changes neither accepted events nor what other merges have read. */
  ghost predicate Merged(dateOf: Dating, before: Lake, after: Lake, date: string, merge: Merge) {
    && after.accepted == before.accepted
    && forall t, kind: Merge ::
         Carried(after, t, kind)
         <==> Carried(before, t, kind) || (kind == merge && t in Touched(dateOf, before.accepted, date))
  }

  lemma MergeStep(dateOf: Dating, steps: seq<Step>, merge: Merge, date: string, frame: seq<PaymentEvent>)
    requires AllEnabled(dateOf, steps + [Apply(merge, date, frame)])
    ensures AllEnabled(dateOf, steps)
    ensures Merged(dateOf, After(dateOf, steps), After(dateOf, steps + [Apply(merge, date, frame)]), date, merge)
  {
    hide After, Next, AllEnabled, Touched, Carried;
    EnabledStep(dateOf, steps, Apply(merge, date, frame));
    forall t { CarriedReads(dateOf, After(dateOf, steps), date, merge, frame, t); }
    MergeAccepts(dateOf, After(dateOf, steps), merge, date, frame);
  }

  lemma MergeAccepts(dateOf: Dating, lake: Lake, merge: Merge, date: string, frame: seq<PaymentEvent>)
    ensures Next(dateOf, lake, Apply(merge, date, frame)).accepted == lake.accepted
  {
    hide Enabled, Reconstruct, ByEventId, ByEntryId, ToPost, PostingLines;
  }

  /** What a completed run leaves carried through. */
  lemma RunCarries(dateOf: Dating, before: seq<Step>, run: DateRun, t: string, merge: Merge)
    requires AllEnabled(dateOf, before + StepsOf(run))
    ensures AllEnabled(dateOf, before)
    ensures var start, end := After(dateOf, before), After(dateOf, before + StepsOf(run));
      && end.accepted == run.incoming + start.accepted
      && (Carried(end, t, merge) <==>
            || t in Touched(dateOf, end.accepted, run.date)
            || (t !in Gaining(start.accepted, run.incoming) && Carried(start, t, merge)))
  {
    hide After, Next, AllEnabled, Enabled, Touched, Carried, Gaining;
    var s := StepsOf(run);
    var a := before + [s[0]];
    var b := a + [s[1]];
    var c := b + [s[2]];
    var d := c + [s[3]];
    assert before + s == d + [s[4]];
    MergeStep(dateOf, d, LedgerMerge, run.date, run.forLedger);
    MergeStep(dateOf, c, PostedMerge, run.date, run.forPosted);
    MergeStep(dateOf, b, ExceptionMerge, run.date, run.forExceptions);
    MergeStep(dateOf, a, StateMerge, run.date, run.forStates);
    EnabledStep(dateOf, before, s[0]);
    IngestStep(dateOf, After(dateOf, before), run.incoming, t, merge);
    AlwaysInvariant(dateOf, before);
  }

  lemma IngestStep(dateOf: Dating, lake: Lake, incoming: Accepted, t: string, merge: Merge)
    requires Enabled(dateOf, lake, Ingest(incoming))
    ensures var after := Next(dateOf, lake, Ingest(incoming));
      && after.accepted == incoming + lake.accepted
      && (Carried(after, t, merge) <==> t !in Gaining(lake.accepted, incoming) && Carried(lake, t, merge))
  {
  }

  /** After completed runs, exactly the settled transactions have been read by every merge. */
  lemma {:induction false} RunsSettle(dateOf: Dating, runs: seq<DateRun>, t: string, merge: Merge)
    requires AllEnabled(dateOf, InSequence(runs))
    ensures After(dateOf, InSequence(runs)).accepted == DeliveredBy(runs)
    ensures Carried(After(dateOf, InSequence(runs)), t, merge) <==> SettledBy(dateOf, runs, t)
  {
    hide AllEnabled, StepsOf, Next, Touched, Gaining;
    if runs != [] {
      var front, last := runs[..|runs| - 1], runs[|runs| - 1];
      RunCarries(dateOf, InSequence(front), last, t, merge);
      RunsSettle(dateOf, front, t, merge);
    }
  }

  // ---- what is shown when a transaction is not settled ----

  /** A state row that unread events have put behind is not the rebuild's. */
  lemma StaleStateIsNotRebuilt(dateOf: Dating, steps: seq<Step>, t: string)
    requires !Carried(After(dateOf, steps), t, StateMerge) && t in After(dateOf, steps).states
    ensures Keyed(After(dateOf, steps).accepted)
    ensures After(dateOf, steps).states[t] !in Project(After(dateOf, steps).accepted, CONFIGURED_RULES).states
    ensures After(dateOf, steps).states[t].transactionId == t
  {
    hide After, Carried, Invariant, Project, EventsOf, StateOf, Rows, Projection.Valid;
    var lake := After(dateOf, steps);
    AlwaysBehind(dateOf, steps, t);
    AlwaysInvariant(dateOf, steps);
    FromInvariant(lake, t);
    ProjectionIsExact(lake.accepted, CONFIGURED_RULES);
    if IsState(lake.accepted, lake.states[t]) {
      StateVersion(lake.accepted, t);
    }
  }

  ghost predicate Stated(accepted: Accepted, t: string)
    requires Keyed(accepted)
  {
    exists s :: s in Project(accepted, CONFIGURED_RULES).states && s.transactionId == t
  }

  lemma ValidIsStated(accepted: Accepted, t: string)
    requires Keyed(accepted) && Projection.Valid(accepted, t)
    ensures Stated(accepted, t)
  {
    hide Project, Assess, StateOf;
    ProjectionIsExact(accepted, CONFIGURED_RULES);
    StateTransaction(accepted, t);
    assert IsState(accepted, StateOf(Rows(accepted, t)));
  }

  /** An unsettled transaction is shown as the rebuild has it only if neither the rebuild nor the view shows it. */
  lemma UnsettledShows(dateOf: Dating, steps: seq<Step>, t: string)
    requires !Carried(After(dateOf, steps), t, StateMerge)
    ensures Keyed(After(dateOf, steps).accepted)
    ensures ShowsRebuild(dateOf, steps, t)
       <==> || (exists k: nat :: ExceptsAt(dateOf, steps, k, t))
            || (!Stated(After(dateOf, steps).accepted, t) && forall k: nat :: !StatesAt(dateOf, steps, k, t))
  {
    hide After, Carried, Invariant, Project, ExceptsAt, StatesAt, Excepted, LinesOfTransaction;
    var lake := After(dateOf, steps);
    AlwaysInvariant(dateOf, steps);
    FromInvariant(lake, t);
    ExceptedExactly(dateOf, steps, t);
    StatedExactly(dateOf, steps, t);
    if t in lake.states {
      StaleStateIsNotRebuilt(dateOf, steps, t);
    }
  }

  // ---- main result ----

  /**
   After any sequence of completed, non-overlapping date runs, whatever dates the delivered events have, a
   transaction is shown as the full rebuild has it if and only if it is settled, or was excepted at some run,
   or is stated neither by the rebuild nor by any run.
   */
  lemma CompletedRunsRefineRebuild(dateOf: Dating, runs: seq<DateRun>, t: string)
    requires AllEnabled(dateOf, InSequence(runs))
    requires t in TransactionSet(DeliveredBy(runs))
    ensures After(dateOf, InSequence(runs)).accepted == DeliveredBy(runs) && Keyed(DeliveredBy(runs))
    ensures ShowsRebuild(dateOf, InSequence(runs), t)
       <==> || SettledBy(dateOf, runs, t)
            || (exists k: nat :: ExceptsAt(dateOf, InSequence(runs), k, t))
            || (!Stated(DeliveredBy(runs), t) && forall k: nat :: !StatesAt(dateOf, InSequence(runs), k, t))
  {
    hide AllEnabled, After, InSequence, ExceptsAt, StatesAt, ShowsRebuild, Keyed, Carried, SettledBy, Stated, DeliveredBy, Invariant;
    var steps := InSequence(runs);
    forall merge: Merge { RunsSettle(dateOf, runs, t, merge); }
    AlwaysInvariant(dateOf, steps);
    FromInvariant(After(dateOf, steps), t);
    if SettledBy(dateOf, runs, t) {
      IncrementalRefinesRebuild(dateOf, steps, t);
    } else {
      UnsettledShows(dateOf, steps, t);
    }
  }

  /** If every newly delivered event's converted date is the date of its own run or of a later one, all is settled. */
  lemma {:induction false} CoveredRunsSettle(dateOf: Dating, runs: seq<DateRun>, t: string)
    requires CoveredFor(dateOf, runs, t)
    ensures SettledBy(dateOf, runs, t)
  {
    if runs != [] && t !in Touched(dateOf, DeliveredBy(runs), runs[|runs| - 1].date) {
      var front, last := runs[..|runs| - 1], runs[|runs| - 1];
      NothingNewWhenUntouched(dateOf, runs, t);
      forall i, id | 0 <= i < |front| && NewFor(front, i, id, t)
        ensures exists j :: i <= j < |front| && front[j].date == dateOf(front[i].incoming[id])
      {
        assert front[..i] == runs[..i];
        assert NewFor(runs, i, id, t);
        var j :| i <= j < |runs| && runs[j].date == dateOf(runs[i].incoming[id]);
        if j == |front| { NewIsDelivered(runs, i, id, t); }
        assert front[j] == runs[j];
      }
      CoveredRunsSettle(dateOf, front, t);
    }
  }

  /** Run i is the first to deliver the event, and it belongs to the transaction. */
  ghost predicate NewFor(runs: seq<DateRun>, i: int, id: string, t: string) {
    0 <= i < |runs| && id in runs[i].incoming && id !in DeliveredBy(runs[..i]) && runs[i].incoming[id].transactionId == t
  }

  ghost predicate CoveredFor(dateOf: Dating, runs: seq<DateRun>, t: string) {
    forall i, id :: 0 <= i < |runs| && NewFor(runs, i, id, t) ==>
      exists j :: i <= j < |runs| && runs[j].date == dateOf(runs[i].incoming[id])
  }

  lemma {:induction false} NewIsDelivered(runs: seq<DateRun>, i: int, id: string, t: string)
    requires NewFor(runs, i, id, t)
    ensures id in DeliveredBy(runs) && DeliveredBy(runs)[id] == runs[i].incoming[id]
  {
    var front := runs[..|runs| - 1];
    if i < |front| {
      assert front[..i] == runs[..i];
      NewIsDelivered(front, i, id, t);
    } else {
      assert runs[..i] == front;
    }
  }

  /** Only the last run itself is left to cover what it is the first to deliver. */
  lemma OwnDateCovers(dateOf: Dating, runs: seq<DateRun>, id: string, t: string)
    requires runs != [] && CoveredFor(dateOf, runs, t) && NewFor(runs, |runs| - 1, id, t)
    ensures id in runs[|runs| - 1].incoming && runs[|runs| - 1].incoming[id].transactionId == t
    ensures runs[|runs| - 1].date == dateOf(runs[|runs| - 1].incoming[id])
  {
    hide DeliveredBy;
    var last := |runs| - 1;
    var j :| last <= j < |runs| && runs[j].date == dateOf(runs[last].incoming[id]);
  }

  lemma NewIsTouched(dateOf: Dating, runs: seq<DateRun>, id: string, t: string)
    requires runs != [] && CoveredFor(dateOf, runs, t) && NewFor(runs, |runs| - 1, id, t)
    ensures t in Touched(dateOf, DeliveredBy(runs), runs[|runs| - 1].date)
  {
    hide DeliveredBy, Touched, NewFor;
    var last := |runs| - 1;
    NewIsDelivered(runs, last, id, t);
    OwnDateCovers(dateOf, runs, id, t);
    TouchedBy(dateOf, DeliveredBy(runs), id);
  }

  lemma NothingNewWhenUntouched(dateOf: Dating, runs: seq<DateRun>, t: string)
    requires runs != [] && CoveredFor(dateOf, runs, t)
    requires t !in Touched(dateOf, DeliveredBy(runs), runs[|runs| - 1].date)
    ensures t !in Gaining(DeliveredBy(runs[..|runs| - 1]), runs[|runs| - 1].incoming)
  {
    hide DeliveredBy;
    var last := |runs| - 1;
    forall id | id in runs[last].incoming && id !in DeliveredBy(runs[..last])
      ensures runs[last].incoming[id].transactionId != t
    {
      if NewFor(runs, last, id, t) { NewIsTouched(dateOf, runs, id, t); }
    }
  }

  lemma TouchedBy(dateOf: Dating, accepted: Accepted, id: string)
    requires id in accepted
    ensures accepted[id].transactionId in Touched(dateOf, accepted, dateOf(accepted[id]))
  {
  }

  /** After completed runs that cover every delivery, every accepted transaction is shown as the rebuild has it. */
  lemma CoveredRunsRefineRebuild(dateOf: Dating, runs: seq<DateRun>, t: string)
    requires AllEnabled(dateOf, InSequence(runs)) && Covered(dateOf, runs)
    requires t in TransactionSet(DeliveredBy(runs))
    ensures After(dateOf, InSequence(runs)).accepted == DeliveredBy(runs) && Keyed(DeliveredBy(runs))
    ensures ShowsRebuild(dateOf, InSequence(runs), t)
  {
    hide AllEnabled, After, InSequence, ExceptsAt, StatesAt, ShowsRebuild, Keyed, SettledBy, Stated, DeliveredBy;
    forall i, id | 0 <= i < |runs| && NewFor(runs, i, id, t)
      ensures exists j :: i <= j < |runs| && runs[j].date == dateOf(runs[i].incoming[id])
    {
    }
    CoveredRunsSettle(dateOf, runs, t);
    CompletedRunsRefineRebuild(dateOf, runs, t);
  }

  // ---- building completed runs ----

  /** The rows that every merge of a run reads. */
  ghost predicate ReadsAffected(dateOf: Dating, before: Accepted, run: DateRun) {
    forall frame :: frame in {run.forStates, run.forExceptions, run.forPosted, run.forLedger} ==>
      Listing(frame, Affected(dateOf, run.incoming + before, run.date)) && IdsUnique(frame)
  }

  /** A run over a well-formed delivery, each of whose merges reads the affected rows, completes. */
  lemma RunCompletes(dateOf: Dating, before: seq<Step>, run: DateRun)
    requires AllEnabled(dateOf, before) && Deliverable(run.incoming)
    requires ReadsAffected(dateOf, After(dateOf, before).accepted, run)
    ensures AllEnabled(dateOf, before + StepsOf(run))
  {
    hide After, Next, AllEnabled, Affected, Listing, Deliverable;
    var s := StepsOf(run);
    var a := before + [s[0]];
    var b := a + [s[1]];
    var c := b + [s[2]];
    var d := c + [s[3]];
    assert before + s == d + [s[4]];
    EnabledStep(dateOf, before, s[0]);
    IngestAccepts(dateOf, After(dateOf, before), run.incoming);
    EnabledStep(dateOf, a, s[1]);
    MergeAccepts(dateOf, After(dateOf, a), StateMerge, run.date, run.forStates);
    EnabledStep(dateOf, b, s[2]);
    MergeAccepts(dateOf, After(dateOf, b), ExceptionMerge, run.date, run.forExceptions);
    EnabledStep(dateOf, c, s[3]);
    MergeAccepts(dateOf, After(dateOf, c), PostedMerge, run.date, run.forPosted);
    EnabledStep(dateOf, d, s[4]);
  }

  lemma FirstRun(dateOf: Dating, run: DateRun)
    ensures After(dateOf, []) == EMPTY_LAKE && AllEnabled(dateOf, [])
    ensures InSequence([run]) == StepsOf(run) == [] + StepsOf(run)
    ensures DeliveredBy([run]) == run.incoming
  {
    hide StepsOf, Enabled;
    assert [run][..0] == [] && InSequence([]) == [] && DeliveredBy([]) == map[];
    assert run.incoming + map[] == run.incoming;
    assert InSequence([run]) == InSequence([]) + StepsOf(run);
  }

  // ---- a failing input: filed under one date, converted to another ----

  /** The completed run of the date under which a single event was filed. */
  function FiledUnder(date: string, e: PaymentEvent): DateRun {
    DateRun(date, map[e.eventId := e], [], [], [], [])
  }

  /**
   A lone valid authorization whose converted date is not that of the run that ingests it: the run completes,
   the event is accepted and the rebuild states it, no exception row hides it, and the view does not show it.
   */
  lemma MisdatedAuthorizationIsMissing(dateOf: Dating, date: string, e: PaymentEvent)
    requires WellFormed(e) && e.eventType == Authorization && e.transactionVersion == 1
    requires dateOf(e) != date
    ensures var runs := [FiledUnder(date, e)];
      var lake := After(dateOf, InSequence(runs));
      && AllEnabled(dateOf, InSequence(runs))
      && lake.accepted == map[e.eventId := e]
      && Keyed(lake.accepted) && Projection.Valid(lake.accepted, e.transactionId)
      && !Excepted(lake, e.transactionId)
      && e.transactionId !in DimPaymentCurrent(lake)
      && !ShowsRebuild(dateOf, InSequence(runs), e.transactionId)
  {
    hide After, AllEnabled, Projection.Valid, ShowsRebuild, StatesAt, ExceptsAt, Excepted, Invariant, Carried, StepsOf;
    hide Project;
    var run := FiledUnder(date, e);
    var runs, t := [run], e.transactionId;
    var steps := InSequence(runs);
    FirstRun(dateOf, run);
    MisdatedRun(dateOf, date, e);
    assert steps == [] + StepsOf(run) && AllEnabled(dateOf, steps);
    RunsSettle(dateOf, runs, t, StateMerge);
    LoneAuthorizationIsValid(e);
    StatedExactly(dateOf, steps, t);
    ExceptedExactly(dateOf, steps, t);
    NothingTouched(dateOf, date, e);
    ValidIsStated(map[e.eventId := e], t);
    UnsettledShows(dateOf, steps, t);
  }

  lemma MisdatedRun(dateOf: Dating, date: string, e: PaymentEvent)
    requires WellFormed(e) && dateOf(e) != date
    ensures AllEnabled(dateOf, [] + StepsOf(FiledUnder(date, e)))
    ensures !SettledBy(dateOf, [FiledUnder(date, e)], e.transactionId)
  {
    hide WellFormed;
    var alone := map[e.eventId := e];
    assert alone[e.eventId] == e && alone + map[] == alone;
    assert Touched(dateOf, alone, date) == {};
    assert Affected(dateOf, alone, date) == {};
    RunCompletes(dateOf, [], FiledUnder(date, e));
    var runs := [FiledUnder(date, e)];
    assert runs[..0] == [] && DeliveredBy(runs) == alone;
    assert e.transactionId in Gaining(map[], alone);
  }

  /** No merge of that run touches the event's transaction. */
  lemma NothingTouched(dateOf: Dating, date: string, e: PaymentEvent)
    requires WellFormed(e) && dateOf(e) != date
    ensures var steps := InSequence([FiledUnder(date, e)]);
      forall k: nat :: !StatesAt(dateOf, steps, k, e.transactionId) && !ExceptsAt(dateOf, steps, k, e.transactionId)
  {
    hide WellFormed, Next, Projection.Valid, HistoryInvalid;
    var run := FiledUnder(date, e);
    var steps := InSequence([run]);
    FirstRun(dateOf, run);
    forall k: nat | 1 <= k < |steps| ensures e.transactionId !in Touched(dateOf, After(dateOf, steps[..k]).accepted, date) {
      AcceptedSoFar(dateOf, run, k);
    }
  }

  /** Within a first run, the accepted events are those it delivered. */
  lemma {:induction false} AcceptedSoFar(dateOf: Dating, run: DateRun, k: nat)
    requires Deliverable(run.incoming) && 1 <= k <= 5
    ensures After(dateOf, StepsOf(run)[..k]).accepted == run.incoming
  {
    hide Next, Deliverable;
    var steps := StepsOf(run)[..k];
    assert steps[..k - 1] == StepsOf(run)[..k - 1] && steps[k - 1] == StepsOf(run)[k - 1];
    if k == 1 {
      assert steps[..0] == [] && After(dateOf, []) == EMPTY_LAKE;
      IngestAccepts(dateOf, EMPTY_LAKE, run.incoming);
      assert run.incoming + map[] == run.incoming;
    } else {
      AcceptedSoFar(dateOf, run, k - 1);
      var last := steps[k - 1];
      MergeAccepts(dateOf, After(dateOf, steps[..k - 1]), last.merge, last.date, last.frame);
    }
  }

  // ---- a filled gap stays hidden ----

  ghost predicate AuthorizedCapture(authorization: PaymentEvent, capture: PaymentEvent) {
    && WellFormed(authorization) && WellFormed(capture)
    && authorization.eventId != capture.eventId
    && authorization.transactionId == capture.transactionId
    && authorization.eventType == Authorization && capture.eventType == Capture
    && authorization.transactionVersion == 1 && capture.transactionVersion == 2
    && authorization.currency == capture.currency
    && authorization.processorId == capture.processorId && authorization.merchantId == capture.merchantId
    && capture.amountMinor <= authorization.amountMinor
  }

  lemma CaptureAloneIsInvalid(capture: PaymentEvent)
    requires capture.eventType == Capture
    ensures Assess([capture]).Some?
  {
    if Assess([capture]).None? {
      AcceptedHasShape([capture]);
    }
  }

  lemma PairIsValid(accepted: Accepted, authorization: PaymentEvent, capture: PaymentEvent)
    requires AuthorizedCapture(authorization, capture)
    requires accepted == map[authorization.eventId := authorization, capture.eventId := capture]
    ensures Keyed(accepted) && Projection.Valid(accepted, capture.transactionId)
  {
    PairRows(accepted, authorization, capture);
    PairShape(authorization, capture);
    ShapeIsAccepted([authorization, capture]);
  }

  lemma PairRows(accepted: Accepted, authorization: PaymentEvent, capture: PaymentEvent)
    requires AuthorizedCapture(authorization, capture)
    requires accepted == map[authorization.eventId := authorization, capture.eventId := capture]
    ensures Keyed(accepted) && Rows(accepted, capture.transactionId) == [authorization, capture]
  {
    hide WellFormed;
    var t := capture.transactionId;
    assert accepted[authorization.eventId] == authorization && accepted[capture.eventId] == capture;
    assert EventsOf(accepted, t) == {authorization, capture};
    EventsTotal(EventsOf(accepted, t));
    AscendingUnique(EventLe, Rows(accepted, t), [authorization, capture], EventsOf(accepted, t));
  }

  lemma PairShape(authorization: PaymentEvent, capture: PaymentEvent)
    requires AuthorizedCapture(authorization, capture)
    ensures AcceptedShape([authorization, capture])
  {
    hide SumSeq, CapturedMinor, RefundedMinor, ChargebackMinor, IsIdentifier;
    var pair := [authorization, capture];
    TotalsAreParts(pair);
    PairSums(authorization, capture, CapturedPart);
    PairSums(authorization, capture, RefundedPart);
    PairSums(authorization, capture, ChargebackPart);
  }

  lemma PairSums(a: PaymentEvent, b: PaymentEvent, f: PaymentEvent -> int)
    ensures SumSeq([a, b], f) == f(a) + f(b)
  {
    assert [a, b] == [a] + [b];
    SumSeqConcat([a], [b], f);
    SumSeqSingle(a, f);
    SumSeqSingle(b, f);
  }

  /** A capture's run, and the run of its authorization, which arrives afterwards. */
  function LateAuthorization(dateOf: Dating, authorization: PaymentEvent, capture: PaymentEvent): seq<DateRun> {
    var alone, pair := [capture], [authorization, capture];
    [DateRun(dateOf(capture), map[capture.eventId := capture], alone, alone, alone, alone),
     DateRun(dateOf(authorization), map[authorization.eventId := authorization], pair, pair, pair, pair)]
  }

  /**
   Incremental is not equal to full rebuild: a transaction once excepted stays hidden after a completed run has
   filled its version gap and its history has become valid, whatever steps follow.
   */
  lemma FilledGapStaysHidden(dateOf: Dating, authorization: PaymentEvent, capture: PaymentEvent, more: seq<Step>)
    requires AuthorizedCapture(authorization, capture)
    ensures var steps := InSequence(LateAuthorization(dateOf, authorization, capture));
      var t := capture.transactionId;
      && AllEnabled(dateOf, steps)
      && Keyed(After(dateOf, steps).accepted) && Projection.Valid(After(dateOf, steps).accepted, t)
      && t !in DimPaymentCurrent(After(dateOf, steps + more))
  {
    hide Assess, Reconstruct, Projection.Valid, AllEnabled, After, ExceptsAt;
    var runs := LateAuthorization(dateOf, authorization, capture);
    var steps, t := InSequence(runs), capture.transactionId;
    LateRuns(dateOf, authorization, capture);
    RunsSettle(dateOf, runs, t, StateMerge);
    PairIsValid(DeliveredBy(runs), authorization, capture);
    assert (steps + more)[..2] == steps[..2] && (steps + more)[2] == steps[2];
    SameExcept(dateOf, steps, steps + more, 2, t);
    ExceptedExactly(dateOf, steps + more, t);
  }

  lemma SameExcept(dateOf: Dating, steps: seq<Step>, longer: seq<Step>, k: nat, t: string)
    requires k < |steps| && k < |longer| && steps[..k] == longer[..k] && steps[k] == longer[k]
    ensures ExceptsAt(dateOf, steps, k, t) <==> ExceptsAt(dateOf, longer, k, t)
  {
    hide After, Touched, HistoryInvalid, Enabled;
  }

  lemma LateRuns(dateOf: Dating, authorization: PaymentEvent, capture: PaymentEvent)
    requires AuthorizedCapture(authorization, capture)
    ensures var runs := LateAuthorization(dateOf, authorization, capture);
      && AllEnabled(dateOf, InSequence(runs))
      && |InSequence(runs)| == 10
      && ExceptsAt(dateOf, InSequence(runs), 2, capture.transactionId)
      && DeliveredBy(runs) == map[authorization.eventId := authorization, capture.eventId := capture]
  {
    hide AllEnabled, After, ExceptsAt, Affected, Touched, WellFormed;
    var runs := LateAuthorization(dateOf, authorization, capture);
    var first, second := StepsOf(runs[0]), StepsOf(runs[1]);
    FirstRun(dateOf, runs[0]);
    assert runs[..1] == [runs[0]] && InSequence(runs) == first + second;
    OnlyCapture(dateOf, capture);
    RunCompletes(dateOf, [], runs[0]);
    RunsSettle(dateOf, runs[..1], capture.transactionId, StateMerge);
    PairAffected(dateOf, authorization, capture);
    RunCompletes(dateOf, first, runs[1]);
    CaptureExcepted(dateOf, capture, runs[0]);
    assert InSequence(runs)[..2] == first[..2] && InSequence(runs)[2] == first[2];
    SameExcept(dateOf, first, InSequence(runs), 2, capture.transactionId);
  }

  lemma CaptureExcepted(dateOf: Dating, capture: PaymentEvent, run: DateRun)
    requires capture.eventType == Capture && WellFormed(capture)
    requires run.date == dateOf(capture) && run.incoming == map[capture.eventId := capture] && run.forExceptions == [capture]
    ensures ExceptsAt(dateOf, StepsOf(run), 2, capture.transactionId)
  {
    hide Assess, Rows, Affected, Touched;
    AcceptedSoFar(dateOf, run, 2);
    OnlyCapture(dateOf, capture);
    SingleRow(capture);
    CaptureAloneIsInvalid(capture);
    assert Listing([capture], {capture}) && IdsUnique([capture]);
  }

  lemma OnlyCapture(dateOf: Dating, capture: PaymentEvent)
    ensures Affected(dateOf, map[capture.eventId := capture] + map[], dateOf(capture)) == {capture}
    ensures Affected(dateOf, map[capture.eventId := capture], dateOf(capture)) == {capture}
    ensures Touched(dateOf, map[capture.eventId := capture], dateOf(capture)) == {capture.transactionId}
  {
    var alone := map[capture.eventId := capture];
    assert alone[capture.eventId] == capture && alone + map[] == alone;
    assert capture.transactionId in Touched(dateOf, alone, dateOf(capture));
  }

  lemma PairAffected(dateOf: Dating, authorization: PaymentEvent, capture: PaymentEvent)
    requires AuthorizedCapture(authorization, capture)
    ensures var all := map[authorization.eventId := authorization] + map[capture.eventId := capture];
      && Affected(dateOf, all, dateOf(authorization)) == {authorization, capture}
      && Listing([authorization, capture], {authorization, capture}) && IdsUnique([authorization, capture])
  {
    hide WellFormed;
    var all := map[authorization.eventId := authorization] + map[capture.eventId := capture];
    assert all[authorization.eventId] == authorization && all[capture.eventId] == capture;
    assert authorization.transactionId in Touched(dateOf, all, dateOf(authorization));
    assert authorization in Affected(dateOf, all, dateOf(authorization));
    assert capture in Affected(dateOf, all, dateOf(authorization));
  }
}
