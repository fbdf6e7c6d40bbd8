/** Safety of the settlement revision protocol over every action sequence. */
module RevisionLaws {
  import opened Revisions

  // ---- the world only moves forward ----

  /** A record stays, is reconciled in place, or gives way to a strictly higher revision. */
  ghost predicate RecordForward(before: Record, after: Record) {
    || after.revision > before.revision
    || (after.revision == before.revision && after.sha == before.sha && after.verifiedKey == before.verifiedKey
        && (after.status == before.status || after.status == Reconciled))
  }

  ghost predicate Forward(w: World, after: World) {
    && (forall date :: date in w.records ==>
          date in after.records && RecordForward(w.records[date], after.records[date]))
    && w.log <= after.log
    && (forall name :: name in w.executions ==>
          && name in after.executions
          && after.executions[name].manifest == w.executions[name].manifest
          && after.executions[name].passed >= w.executions[name].passed)
    && w.evidence <= after.evidence
  }

  lemma LogKeeps(w: World, after: World, m: Manifest)
    requires Forward(w, after) && m in w.log
    ensures m in after.log
  {
    var i :| 0 <= i < |w.log| && w.log[i] == m;
    assert after.log[i] == m;
  }

  // ---- right stays right ----

  lemma LoaderStaysRight(w: World, after: World, l: Loader)
    requires Forward(w, after) && LoaderRight(w, l)
    ensures LoaderRight(after, l)
  {
    hide ExecutionName, Wellformed;
    if l.phase.Starting? { LogKeeps(w, after, l.manifest); }
  }

  lemma ExecutionStaysRight(w: World, after: World, name: string, x: Execution)
    requires Forward(w, after) && ExecutionRight(w, name, x)
    ensures ExecutionRight(after, name, x)
  {
    hide ExecutionName;
    LogKeeps(w, after, x.manifest);
  }

  lemma JustifiedStays(w: World, after: World, m: Manifest)
    requires Forward(w, after) && Justified(w, m)
    requires forall name :: name in after.executions ==> after.executions[name].passed <= GLUE_STAGES
    ensures Justified(after, m)
  {
    hide ExecutionName;
  }

  // ---- composing an invariant from what changed ----

  ghost predicate LogRight(w: World) {
    Increasing(w.log) && RecordsLatest(w)
  }

  ghost predicate LoadersRight(w: World, after: World) {
    forall id :: id in after.loaders ==>
      (id in w.loaders && after.loaders[id] == w.loaders[id]) || LoaderRight(after, after.loaders[id])
  }

  ghost predicate ExecutionsRight(w: World, after: World) {
    forall name :: name in after.executions ==>
      (name in w.executions && after.executions[name] == w.executions[name])
      || ExecutionRight(after, name, after.executions[name])
  }

  ghost predicate RecordsRight(w: World, after: World) {
    forall date :: date in after.records && after.records[date].status == Reconciled ==>
      (date in w.records && after.records[date] == w.records[date])
      || Justified(after, ManifestOf(date, after.records[date]))
  }

  lemma Compose(w: World, after: World)
    requires Invariant(w) && Forward(w, after) && LogRight(after)
    requires LoadersRight(w, after) && ExecutionsRight(w, after) && RecordsRight(w, after)
    ensures Invariant(after)
  {
    hide LoaderRight, ExecutionRight, Justified, RecordsLatest, Increasing, Forward;
    forall id | id in after.loaders ensures LoaderRight(after, after.loaders[id]) {
      if id in w.loaders && after.loaders[id] == w.loaders[id] {
        LoaderStaysRight(w, after, w.loaders[id]);
      }
    }
    forall name | name in after.executions
      ensures ExecutionRight(after, name, after.executions[name]) && after.executions[name].passed <= GLUE_STAGES
    {
      if name in w.executions && after.executions[name] == w.executions[name] {
        ExecutionStaysRight(w, after, name, w.executions[name]);
      }
      RightIsBounded(after, name, after.executions[name]);
    }
    forall date | date in after.records && after.records[date].status == Reconciled
      ensures Justified(after, ManifestOf(date, after.records[date]))
    {
      if date in w.records && after.records[date] == w.records[date] {
        JustifiedStays(w, after, ManifestOf(date, w.records[date]));
      }
    }
  }

  lemma RightIsBounded(w: World, name: string, x: Execution)
    requires ExecutionRight(w, name, x)
    ensures x.passed <= GLUE_STAGES
  {
  }

  // ---- reading the invariant ----

  lemma LogIsRight(w: World)
    requires Invariant(w)
    ensures LogRight(w)
  {
  }

  lemma LoaderWasRight(w: World, id: nat)
    requires Invariant(w)
    ensures id in w.loaders ==> LoaderRight(w, w.loaders[id])
  {
  }

  lemma ExecutionWasRight(w: World, name: string)
    requires Invariant(w)
    ensures name in w.executions ==> ExecutionRight(w, name, w.executions[name])
  {
  }

  // ---- registrations ----

  lemma LogStaysIncreasing(log: seq<Manifest>, m: Manifest)
    requires Increasing(log)
    requires forall i :: 0 <= i < |log| && log[i].date == m.date ==> log[i].revision < m.revision
    ensures Increasing(log + [m])
  {
  }

  lemma RegistrationKeepsLog(w: World, m: Manifest)
    requires LogRight(w) && Wellformed(m) && MayRegister(w.records, m)
    ensures Increasing(w.log + [m])
    ensures RecordsLatest(w.(records := Registered(w.records, m), log := w.log + [m]))
  {
    hide VerifiedKey, Wellformed, Increasing;
    assert forall i :: 0 <= i < |w.log| ==> w.log[i] in w.log;
    LogStaysIncreasing(w.log, m);
    var after := w.(records := Registered(w.records, m), log := w.log + [m]);
    forall x | x in after.log ensures Wellformed(x) && x.date in after.records && x.revision <= after.records[x.date].revision {
      assert x in w.log || x == m;
    }
    forall date | date in after.records
      ensures ManifestOf(date, after.records[date]) in after.log
      ensures after.records[date].verifiedKey == VerifiedKey(ManifestOf(date, after.records[date]))
    {
      if date == m.date {
        assert after.log[|w.log|] == m;
      } else {
        assert ManifestOf(date, w.records[date]) in w.log;
      }
    }
  }

  lemma SameLatest(a: World, b: World)
    requires a.records == b.records && a.log == b.log && LogRight(a)
    ensures LogRight(b)
  {
  }

  // ---- one lemma per action ----

  lemma DeliverKeeps(w: World, id: nat, m: Manifest)
    requires Invariant(w)
    ensures Invariant(DoDeliver(w, id, m)) && Forward(w, DoDeliver(w, id, m))
  {
    hide Invariant, ExecutionRight, Justified, RecordsLatest, Increasing;
    var after := DoDeliver(w, id, m);
    LogIsRight(w);
    SameLatest(w, after);
    Compose(w, after);
  }

  lemma UpdateKeeps(w: World, id: nat, reported: bool)
    requires Invariant(w)
    ensures Invariant(DoUpdate(w, id, reported)) && Forward(w, DoUpdate(w, id, reported))
  {
    hide Invariant, ExecutionRight, Justified, RecordsLatest, Increasing, VerifiedKey, ExecutionName, Wellformed;
    var after := DoUpdate(w, id, reported);
    LogIsRight(w);
    LoaderWasRight(w, id);
    if InPhase(w, id, Updating) && MayRegister(w.records, w.loaders[id].manifest) {
      var m := w.loaders[id].manifest;
      RegistrationKeepsLog(w, m);
      SameLatest(w.(records := Registered(w.records, m), log := w.log + [m]), after);
      assert after.log[|w.log|] == m;
    } else {
      SameLatest(w, after);
    }
    Compose(w, after);
  }

  lemma ReadBackKeeps(w: World, id: nat)
    requires Invariant(w)
    ensures Invariant(DoReadBack(w, id)) && Forward(w, DoReadBack(w, id))
  {
    hide Invariant, ExecutionRight, Justified, Increasing, VerifiedKey, ExecutionName, Wellformed, Classify;
    var after := DoReadBack(w, id);
    LogIsRight(w);
    LoaderWasRight(w, id);
    SameLatest(w, after);
    if InPhase(w, id, ReadingBack) {
      ReadLoader(after, w.loaders[id].manifest);
    }
    Compose(w, after);
  }

  lemma ReadLoader(w: World, m: Manifest)
    requires !MayRegister(w.records, m) && Wellformed(m)
    requires RecordsLatest(w)
    ensures LoaderRight(w, Loader(m, Classify(w.records[m.date], m)))
  {
    hide ExecutionName, VerifiedKey, Wellformed;
    var read := w.records[m.date];
    assert ManifestOf(m.date, read) in w.log;
  }

  /** An execution found under a registered manifest's name is that manifest's own. */
  lemma NameOfRegistered(w: World, m: Manifest)
    requires Invariant(w) && m in w.log && ExecutionName(m) in w.executions
    ensures w.executions[ExecutionName(m)].manifest == m
  {
    hide VerifiedKey, Justified, ExecutionName, LoaderRight;
    var x := w.executions[ExecutionName(m)];
    assert ExecutionRight(w, ExecutionName(m), x);
    NamesIdentify(x.manifest, m);
    OneSha(w.log, x.manifest, m);
  }

  lemma StartKeeps(w: World, id: nat, reported: bool)
    requires Invariant(w)
    ensures Invariant(DoStart(w, id, reported)) && Forward(w, DoStart(w, id, reported))
  {
    hide Invariant, Justified, RecordsLatest, Increasing, VerifiedKey, ExecutionName, Wellformed;
    var after := DoStart(w, id, reported);
    LogIsRight(w);
    LoaderWasRight(w, id);
    SameLatest(w, after);
    if IsStarting(w, id) {
      var m := w.loaders[id].manifest;
      LatestCovers(w, m);
      if ExecutionName(m) in w.executions {
        NameOfRegistered(w, m);
      }
    }
    Compose(w, after);
  }

  lemma LatestCovers(w: World, m: Manifest)
    requires LogRight(w) && m in w.log
    ensures m.date in w.records
  {
  }

  lemma CrashKeeps(w: World, id: nat)
    requires Invariant(w)
    ensures Invariant(DoCrash(w, id)) && Forward(w, DoCrash(w, id))
  {
    hide Invariant, ExecutionRight, Justified, RecordsLatest, Increasing, Wellformed;
    LogIsRight(w);
    LoaderWasRight(w, id);
    SameLatest(w, DoCrash(w, id));
    Compose(w, DoCrash(w, id));
  }

  lemma PassStageKeeps(w: World, name: string)
    requires Invariant(w)
    ensures Invariant(DoPassStage(w, name)) && Forward(w, DoPassStage(w, name))
  {
    hide Invariant, LoaderRight, Justified, RecordsLatest, Increasing, ExecutionName;
    LogIsRight(w);
    ExecutionWasRight(w, name);
    SameLatest(w, DoPassStage(w, name));
    Compose(w, DoPassStage(w, name));
  }

  lemma FailKeeps(w: World, name: string)
    requires Invariant(w)
    ensures Invariant(DoFail(w, name)) && Forward(w, DoFail(w, name))
  {
    hide Invariant, LoaderRight, Justified, RecordsLatest, Increasing, ExecutionName;
    LogIsRight(w);
    ExecutionWasRight(w, name);
    SameLatest(w, DoFail(w, name));
    Compose(w, DoFail(w, name));
  }

  lemma WriteEvidenceKeeps(w: World, name: string, reported: bool)
    requires Invariant(w)
    ensures Invariant(DoWriteEvidence(w, name, reported)) && Forward(w, DoWriteEvidence(w, name, reported))
  {
    hide Invariant, LoaderRight, Justified, RecordsLatest, Increasing, ExecutionName;
    LogIsRight(w);
    ExecutionWasRight(w, name);
    SameLatest(w, DoWriteEvidence(w, name, reported));
    Compose(w, DoWriteEvidence(w, name, reported));
  }

  /** A registered manifest that no longer matches the record has been overtaken by a higher revision. */
  lemma SupersededIsOlder(w: World, m: Manifest)
    requires Increasing(w.log) && RecordsLatest(w) && m in w.log && !MayPublish(w.records, m)
    ensures m.date in w.records && w.records[m.date].revision > m.revision
  {
    hide VerifiedKey, Wellformed;
    var latest := ManifestOf(m.date, w.records[m.date]);
    assert latest in w.log;
    if w.records[m.date].revision == m.revision {
      OneSha(w.log, latest, m);
    }
  }

  lemma ReconcileKeepsLog(w: World, after: World, m: Manifest)
    requires LogRight(w) && m.date in w.records
    requires after.records == Reconcile(w.records, m) && after.log == w.log
    ensures LogRight(after)
  {
    hide VerifiedKey, Wellformed, Increasing, RecordsLatest, ManifestOf;
    forall date ensures date in after.records <==> date in w.records {}
    forall date | date in w.records
      ensures SameRevision(w.records[date], after.records[date])
    {}
    SameRevisionsLatest(w, after);
  }

  ghost predicate SameRevision(a: Record, b: Record) {
    a.revision == b.revision && a.sha == b.sha && a.verifiedKey == b.verifiedKey
  }

  lemma SameRevisionsLatest(w: World, after: World)
    requires RecordsLatest(w) && after.log == w.log && after.records.Keys == w.records.Keys
    requires forall date :: date in w.records ==> SameRevision(w.records[date], after.records[date])
    ensures RecordsLatest(after)
  {
    hide VerifiedKey, Wellformed;
    forall date | date in after.records
      ensures ManifestOf(date, after.records[date]) in after.log
      ensures after.records[date].verifiedKey == VerifiedKey(ManifestOf(date, after.records[date]))
    {
      assert SameRevision(w.records[date], after.records[date]);
    }
    forall m | m in after.log
      ensures Wellformed(m) && m.date in after.records && m.revision <= after.records[m.date].revision
    {
      assert SameRevision(w.records[m.date], after.records[m.date]);
    }
  }

  lemma PublishKeeps(w: World, name: string, reported: bool)
    requires Invariant(w)
    ensures Invariant(DoPublish(w, name, reported)) && Forward(w, DoPublish(w, name, reported))
  {
    hide Invariant, LoaderRight, RecordsLatest, Increasing, ExecutionName;
    var after := DoPublish(w, name, reported);
    LogIsRight(w);
    ExecutionWasRight(w, name);
    if Runs(w, name, AtGate) && MayPublish(w.records, w.executions[name].manifest) {
      ReconcileKeepsLog(w, after, w.executions[name].manifest);
    } else {
      SameLatest(w, after);
      if Runs(w, name, AtGate) {
        SupersededIsOlder(w, w.executions[name].manifest);
      }
    }
    Compose(w, after);
  }

  lemma StepKeeps(w: World, a: Action)
    requires Invariant(w)
    ensures Invariant(Step(w, a)) && Forward(w, Step(w, a))
  {
    hide Invariant, Forward, DoDeliver, DoUpdate, DoReadBack, DoStart, DoCrash, DoPassStage, DoFail, DoWriteEvidence, DoPublish;
    match a
    case Deliver(id, m) => DeliverKeeps(w, id, m);
    case Update(id, reported) => UpdateKeeps(w, id, reported);
    case ReadBack(id) => ReadBackKeeps(w, id);
    case Start(id, reported) => StartKeeps(w, id, reported);
    case CrashLoader(id) => CrashKeeps(w, id);
    case PassStage(name) => PassStageKeeps(w, name);
    case FailExecution(name) => FailKeeps(w, name);
    case WriteEvidence(name, reported) => WriteEvidenceKeeps(w, name, reported);
    case Publish(name, reported) => PublishKeeps(w, name, reported);
  }

  /** Every reachable world satisfies the invariant. */
  lemma {:induction false} AlwaysInvariant(actions: seq<Action>)
    ensures Invariant(After(actions))
  {
    hide Invariant, Step;
    if actions == [] {
      StartsRight();
    } else {
      AlwaysInvariant(actions[..|actions| - 1]);
      StepKeeps(After(actions[..|actions| - 1]), actions[|actions| - 1]);
    }
  }

  lemma StartsRight()
    ensures Invariant(EMPTY_WORLD)
  {
  }

  // ---- main results ----

  /**
   Publication safety: whenever a date is marked reconciled, an execution with exactly the record's current
   revision and sha has passed all five Glue stages and written its evidence.
   */
  lemma PublicationSafety(actions: seq<Action>, date: string)
    ensures var w := After(actions);
      date in w.records && w.records[date].status == Reconciled ==>
        exists name :: name in w.executions
          && w.executions[name].manifest == ManifestOf(date, w.records[date])
          && w.executions[name].passed == GLUE_STAGES
          && ManifestOf(date, w.records[date]) in w.evidence
  {
    hide After, LoaderRight, ExecutionRight, Increasing, RecordsLatest;
    var w := After(actions);
    AlwaysInvariant(actions);
    if date in w.records && w.records[date].status == Reconciled {
      assert Justified(w, ManifestOf(date, w.records[date]));
    }
  }

  /** No action lowers a revision or rewrites one in place; a publish changes only its own revision's status. */
  lemma NewerRevisionsStand(actions: seq<Action>, a: Action, date: string)
    requires date in After(actions).records
    ensures After(actions + [a]) == Step(After(actions), a)
    ensures date in After(actions + [a]).records
    ensures RecordForward(After(actions).records[date], After(actions + [a]).records[date])
    ensures a.Publish? && After(actions + [a]).records[date] != After(actions).records[date] ==>
              && a.name in After(actions).executions
              && After(actions).executions[a.name].manifest == ManifestOf(date, After(actions).records[date])
              && After(actions + [a]).records[date] == After(actions).records[date].(status := Reconciled)
  {
    hide Invariant, DoDeliver, DoUpdate, DoReadBack, DoStart, DoCrash, DoPassStage, DoFail, DoWriteEvidence;
    AlwaysInvariant(actions);
    assert (actions + [a])[..|actions|] == actions;
    StepKeeps(After(actions), a);
  }

  /** Registered revisions of a date strictly increase, and each names one sha. */
  lemma RegistrationsAreOrdered(actions: seq<Action>, a: Manifest, b: Manifest)
    ensures Increasing(After(actions).log)
    ensures a in After(actions).log && b in After(actions).log && a.date == b.date && a.revision == b.revision ==> a == b
  {
    hide After, Invariant, RecordsLatest, Increasing;
    AlwaysInvariant(actions);
    LogIsRight(After(actions));
    if a in After(actions).log && b in After(actions).log && a.date == b.date && a.revision == b.revision {
      OneSha(After(actions).log, a, b);
    }
  }

  /** At most one execution ever exists per date and revision, although names truncate the sha. */
  lemma OneExecutionPerRevision(actions: seq<Action>, first: string, second: string)
    requires first in After(actions).executions && second in After(actions).executions
    ensures var a, b := After(actions).executions[first].manifest, After(actions).executions[second].manifest;
      a.date == b.date && a.revision == b.revision ==> first == second && a == b
  {
    hide After, LoaderRight, Justified, RecordsLatest, Increasing, ExecutionName;
    var w := After(actions);
    AlwaysInvariant(actions);
    assert ExecutionRight(w, first, w.executions[first]) && ExecutionRight(w, second, w.executions[second]);
    var a, b := w.executions[first].manifest, w.executions[second].manifest;
    if a.date == b.date && a.revision == b.revision {
      OneSha(w.log, a, b);
    }
  }

  /**
   Classification is truthful although the write and the read are separate: a stale verdict means that a
   higher revision is registered, a reuse verdict that the read record has the offered revision and another
   sha, and every success or duplicate verdict that an execution of exactly this manifest exists.
   */
  lemma ClassificationIsTruthful(actions: seq<Action>, id: nat)
    requires id in After(actions).loaders && After(actions).loaders[id].phase.Finished?
    ensures var w, l := After(actions), After(actions).loaders[id];
      match l.phase.result
      case StaleManifest =>
        l.manifest.date in w.records && w.records[l.manifest.date].revision > l.manifest.revision
      case ReusedRevision(read) => read.revision == l.manifest.revision && read.sha != l.manifest.sha
      case Verified => l.manifest in w.log && Started(w, l.manifest)
      case RecoveredDuplicate => l.manifest in w.log && Started(w, l.manifest)
      case DuplicateManifest => l.manifest in w.log && Started(w, l.manifest)
      case Crashed => true
  {
    hide After, Justified, RecordsLatest, Increasing, ExecutionName;
    var w := After(actions);
    AlwaysInvariant(actions);
    assert LoaderRight(w, w.loaders[id]);
    var m := w.loaders[id].manifest;
    if Started(w, m) {
      assert ExecutionRight(w, ExecutionName(m), w.executions[ExecutionName(m)]);
    }
  }

  /** An execution ends superseded only when a strictly higher revision is registered for its date. */
  lemma SupersededMeansNewer(actions: seq<Action>, name: string)
    requires name in After(actions).executions && After(actions).executions[name].phase == Superseded
    ensures var w := After(actions);
      var m := w.executions[name].manifest;
      m.date in w.records && w.records[m.date].revision > m.revision
  {
    hide After, LoaderRight, Justified, RecordsLatest, Increasing, ExecutionName;
    AlwaysInvariant(actions);
    assert ExecutionRight(After(actions), name, After(actions).executions[name]);
  }
}
