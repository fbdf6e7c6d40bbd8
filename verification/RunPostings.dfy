/** A completed date run never posts what it has itself found invalid. */
module RunPostings {
  import opened Contracts
  import opened Ledger
  import opened Lifecycle
  import opened History
  import opened Reconstruction
  import opened Pipeline
  import opened PipelineLaws
  import opened DateRuns
  import opened MergeLaws

  /** The step sequence of a run up to its k-th step. */
  function UpTo(before: seq<Step>, run: DateRun, k: nat): seq<Step>
    requires k <= 5
  {
    before + StepsOf(run)[..k]
  }

  lemma OneMore(dateOf: Dating, before: seq<Step>, run: DateRun, k: nat)
    requires k < 5
    ensures UpTo(before, run, k + 1) == UpTo(before, run, k) + [StepsOf(run)[k]]
    ensures UpTo(before, run, k + 1)[..|UpTo(before, run, k + 1)| - 1] == UpTo(before, run, k)
  {
    assert StepsOf(run)[..k + 1] == StepsOf(run)[..k] + [StepsOf(run)[k]];
  }

  ghost predicate HasPostings(lake: Lake, id: string) {
    id in lake.posted || EntryId(id, 1) in lake.ledger
  }

  /** After the run's exception merge, an event of a touched and then invalid transaction has its row. */
  lemma ExceptedByThen(dateOf: Dating, before: seq<Step>, run: DateRun, id: string)
    requires AllEnabled(dateOf, UpTo(before, run, 5))
    requires id in After(dateOf, UpTo(before, run, 5)).accepted
    requires EventsSound(After(dateOf, UpTo(before, run, 5)).accepted)
    requires var accepted := After(dateOf, UpTo(before, run, 5)).accepted; var t := accepted[id].transactionId;
      t in Touched(dateOf, accepted, run.date) && HistoryInvalid(accepted, t)
    ensures id in After(dateOf, UpTo(before, run, 3)).exceptions && id in After(dateOf, UpTo(before, run, 4)).exceptions
  {
    hide After, Next, Touched, HistoryInvalid, EventsSound, Enabled, Explains, Rows;
    var s2, s3, s4, s5 := UpTo(before, run, 2), UpTo(before, run, 3), UpTo(before, run, 4), UpTo(before, run, 5);
    OneMore(dateOf, before, run, 2);
    OneMore(dateOf, before, run, 3);
    OneMore(dateOf, before, run, 4);
    MergeStep(dateOf, s4, LedgerMerge, run.date, run.forLedger);
    MergeStep(dateOf, s3, PostedMerge, run.date, run.forPosted);
    MergeStep(dateOf, s2, ExceptionMerge, run.date, run.forExceptions);
    EnabledStep(dateOf, s2, Apply(ExceptionMerge, run.date, run.forExceptions));
    EnabledStep(dateOf, s3, Apply(PostedMerge, run.date, run.forPosted));
    var lake := After(dateOf, s2);
    var e := lake.accepted[id];
    SoundEvent(lake.accepted, id);
    EnabledDelivers(dateOf, lake, ExceptionMerge, run.date, run.forExceptions);
    ExceptionMergeWrites(dateOf, s2, run.date, run.forExceptions, e.transactionId, e);
    PostedKeepsExceptions(dateOf, After(dateOf, s3), run.date, run.forPosted);
  }

  lemma SoundEvent(accepted: Accepted, id: string)
    requires EventsSound(accepted) && id in accepted
    ensures accepted[id].eventId == id && accepted[id] in EventsOf(accepted, accepted[id].transactionId)
  {
  }

  lemma EnabledDelivers(dateOf: Dating, lake: Lake, merge: Merge, date: string, frame: seq<PaymentEvent>)
    requires Enabled(dateOf, lake, Apply(merge, date, frame))
    ensures Delivered(dateOf, lake, date, frame)
  {
  }

  lemma PostedKeepsExceptions(dateOf: Dating, lake: Lake, date: string, frame: seq<PaymentEvent>)
    ensures Next(dateOf, lake, Apply(PostedMerge, date, frame)).exceptions == lake.exceptions
  {
    hide ToPost, ByEventId, Enabled;
  }

  /**
   A completed run that touches a transaction and finds it invalid posts and enters none of its events: what is posted
   or entered of it afterwards was so before the run.
   */
  lemma InvalidIsNotPosted(dateOf: Dating, before: seq<Step>, run: DateRun, id: string)
    requires AllEnabled(dateOf, before + StepsOf(run))
    requires var accepted := After(dateOf, before + StepsOf(run)).accepted;
      && EventsSound(accepted) && id in accepted
      && accepted[id].transactionId in Touched(dateOf, accepted, run.date)
      && HistoryInvalid(accepted, accepted[id].transactionId)
    ensures HasPostings(After(dateOf, before + StepsOf(run)), id) <==> HasPostings(After(dateOf, before), id)
  {
    hide After, Touched, HistoryInvalid, EventsSound, Enabled, AllEnabled, EntryId;
    assert UpTo(before, run, 5) == before + StepsOf(run) && UpTo(before, run, 0) == before;
    ExceptedByThen(dateOf, before, run, id);
    StepPosts(dateOf, before, run, 0, id);
    StepPosts(dateOf, before, run, 1, id);
    StepPosts(dateOf, before, run, 2, id);
    StepPosts(dateOf, before, run, 3, id);
    StepPosts(dateOf, before, run, 4, id);
  }

  lemma StepPosts(dateOf: Dating, before: seq<Step>, run: DateRun, k: nat, id: string)
    requires k < 5
    requires k >= 3 ==> id in After(dateOf, UpTo(before, run, k)).exceptions
    ensures HasPostings(After(dateOf, UpTo(before, run, k + 1)), id) <==> HasPostings(After(dateOf, UpTo(before, run, k)), id)
  {
    hide After, Touched, Enabled, EntryId;
    OneMore(dateOf, before, run, k);
    LastStepPosts(dateOf, UpTo(before, run, k + 1), id);
    LastStepEnters(dateOf, UpTo(before, run, k + 1), id);
  }
}
