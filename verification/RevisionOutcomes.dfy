/**
 What a settlement execution's end says about its publication.  A workflow that ends failed may have
 published: the reply to its conditional update can be lost after the update took effect.
 */
module RevisionOutcomes {
  import opened Revisions
  import opened RevisionLaws

  /** The record is exactly the manifest's registration and is reconciled. */
  ghost predicate OwnReconciled(w: World, m: Manifest) {
    && m.date in w.records
    && w.records[m.date].revision == m.revision && w.records[m.date].sha == m.sha
    && w.records[m.date].status == Reconciled
  }

  ghost predicate Publishes(w: World, a: Action, name: string) {
    a.Publish? && a.name == name && Runs(w, name, AtGate) && MayPublish(w.records, w.executions[name].manifest)
  }

  /** Action k is the execution's publishing update, and its condition holds. */
  ghost predicate PublishesAt(actions: seq<Action>, k: nat, name: string) {
    k < |actions| && Publishes(After(actions[..k]), actions[k], name)
  }

  ghost predicate Registers(w: World, a: Action, date: string) {
    && a.Update? && InPhase(w, a.loader, Updating)
    && w.loaders[a.loader].manifest.date == date && MayRegister(w.records, w.loaders[a.loader].manifest)
  }

  /** Action k registers a revision of the date. */
  ghost predicate RegistersAt(actions: seq<Action>, k: nat, date: string) {
    k < |actions| && Registers(After(actions[..k]), actions[k], date)
  }

  /** The execution published at action k and no registration has replaced its record since. */
  ghost predicate StandsSince(actions: seq<Action>, k: nat, name: string, date: string) {
    PublishesAt(actions, k, name) && forall j: nat :: k < j < |actions| ==> !RegistersAt(actions, j, date)
  }

  // ---- one action ----

  lemma OnlyRegistrationsAndPublishes(w: World, a: Action, date: string)
    requires Invariant(w)
    requires !Registers(w, a, date)
    requires forall name :: Publishes(w, a, name) ==> w.executions[name].manifest.date != date
    ensures date in Step(w, a).records <==> date in w.records
    ensures date in w.records ==> Step(w, a).records[date] == w.records[date]
  {
    hide Invariant, VerifiedKey, ExecutionName, Classify;
    if a.Publish? && Runs(w, a.name, AtGate) && MayPublish(w.records, w.executions[a.name].manifest) {
      assert Publishes(w, a, a.name);
    }
  }

  lemma RegistrationReplaces(w: World, a: Action, m: Manifest)
    requires Registers(w, a, m.date)
    ensures !OwnReconciled(Step(w, a), m)
  {
    hide VerifiedKey;
  }

  lemma PublishReconciles(w: World, a: Action, name: string)
    requires Publishes(w, a, name)
    ensures OwnReconciled(Step(w, a), w.executions[name].manifest)
    ensures !Registers(w, a, w.executions[name].manifest.date)
  {
  }

  /** Another execution's publish concerns another revision of the date, or another date. */
  lemma OtherPublish(w: World, a: Action, other: string, name: string)
    requires Invariant(w) && Publishes(w, a, other) && other != name && name in w.executions
    ensures OwnReconciled(Step(w, a), w.executions[name].manifest) <==> OwnReconciled(w, w.executions[name].manifest)
  {
    hide LoaderRight, Justified, RecordsLatest, Increasing, ExecutionName, VerifiedKey;
    assert ExecutionRight(w, name, w.executions[name]) && ExecutionRight(w, other, w.executions[other]);
    var m, n := w.executions[name].manifest, w.executions[other].manifest;
    assert m != n;
    if m.date == n.date && m.revision == n.revision { OneSha(w.log, m, n); }
  }

  lemma ManifestStays(w: World, a: Action, name: string)
    requires Invariant(w) && name in w.executions
    ensures name in Step(w, a).executions && Step(w, a).executions[name].manifest == w.executions[name].manifest
  {
    hide Invariant;
    StepKeeps(w, a);
  }

  lemma NewIsUnpublished(w: World, a: Action, name: string)
    requires Invariant(w) && name !in w.executions && name in Step(w, a).executions
    ensures !OwnReconciled(Step(w, a), Step(w, a).executions[name].manifest)
  {
    hide Invariant, OwnReconciled, VerifiedKey;
    var after := Step(w, a);
    var m := after.executions[name].manifest;
    assert after.records == w.records && name == ExecutionName(m);
    if OwnReconciled(w, m) { ReconciledIsStarted(w, m); }
    SameRecords(w, after, m);
  }

  lemma ReconciledIsStarted(w: World, m: Manifest)
    requires Invariant(w) && OwnReconciled(w, m)
    ensures ExecutionName(m) in w.executions
  {
    hide LoaderRight, ExecutionRight, RecordsLatest, Increasing, VerifiedKey;
    assert Justified(w, ManifestOf(m.date, w.records[m.date]));
  }

  lemma SameRecords(a: World, b: World, m: Manifest)
    requires a.records == b.records
    ensures OwnReconciled(a, m) <==> OwnReconciled(b, m)
  {
  }

  // ---- every action sequence ----

  lemma SamePrefix(front: seq<Action>, actions: seq<Action>, k: nat, name: string, date: string)
    requires |actions| > 0 && front == actions[..|actions| - 1] && k < |front|
    ensures PublishesAt(actions, k, name) <==> PublishesAt(front, k, name)
    ensures RegistersAt(actions, k, date) <==> RegistersAt(front, k, date)
  {
    hide After, Publishes, Registers;
    assert actions[..k] == front[..k] && actions[k] == front[k];
  }

  lemma StandsOneMore(actions: seq<Action>, name: string, date: string)
    requires actions != []
    ensures var front, last := actions[..|actions| - 1], |actions| - 1;
      (exists k: nat :: StandsSince(actions, k, name, date))
      <==> || PublishesAt(actions, last, name)
           || ((exists k: nat :: StandsSince(front, k, name, date)) && !RegistersAt(actions, last, date))
  {
    hide PublishesAt, RegistersAt;
    var front, last := actions[..|actions| - 1], |actions| - 1;
    forall k: nat | k < |front|
      ensures PublishesAt(actions, k, name) <==> PublishesAt(front, k, name)
      ensures RegistersAt(actions, k, date) <==> RegistersAt(front, k, date)
    {
      SamePrefix(front, actions, k, name, date);
    }
    if k: nat :| StandsSince(actions, k, name, date) {
      PublishIsAction(actions, k, name);
      if k < last { assert StandsSince(front, k, name, date); }
    }
    if k: nat :| StandsSince(front, k, name, date) {
      PublishIsAction(front, k, name);
      if !RegistersAt(actions, last, date) { assert StandsSince(actions, k, name, date); }
    }
    if PublishesAt(actions, last, name) { assert StandsSince(actions, last, name, date); }
  }

  lemma PublishIsAction(actions: seq<Action>, k: nat, name: string)
    requires PublishesAt(actions, k, name)
    ensures k < |actions|
  {
    hide After, Publishes;
  }

  lemma UnknownNeverPublished(actions: seq<Action>, k: nat, name: string)
    requires PublishesAt(actions, k, name)
    ensures name in After(actions).executions
    ensures After(actions).executions[name].manifest == After(actions[..k]).executions[name].manifest
  {
    hide After, Invariant;
    assert actions == actions[..k] + actions[k..];
    ExecutionsStay(actions[..k], actions[k..], name);
  }

  lemma {:induction false} ExecutionsStay(actions: seq<Action>, more: seq<Action>, name: string)
    requires name in After(actions).executions
    ensures name in After(actions + more).executions
    ensures After(actions + more).executions[name].manifest == After(actions).executions[name].manifest
  {
    hide Invariant, Step;
    if more == [] {
      assert actions + more == actions;
    } else {
      var last := |more| - 1;
      ExecutionsStay(actions, more[..last], name);
      assert (actions + more)[..|actions + more| - 1] == actions + more[..last];
      AlwaysInvariant(actions + more[..last]);
      ManifestStays(After(actions + more[..last]), more[last], name);
    }
  }

  /**
   An execution's own revision is reconciled exactly if one of the execution's publishing updates met its
   condition and no registration has replaced the record since.
   */
  lemma {:induction false} ReconciledExactly(actions: seq<Action>, name: string)
    requires name in After(actions).executions
    ensures var m := After(actions).executions[name].manifest;
      OwnReconciled(After(actions), m) <==> exists k: nat :: StandsSince(actions, k, name, m.date)
  {
    hide Invariant, Step, Publishes, Registers, OwnReconciled, StandsSince;
    var front := actions[..|actions| - 1];
    var w, a := After(front), actions[|actions| - 1];
    var m := After(actions).executions[name].manifest;
    AlwaysInvariant(front);
    StandsOneMore(actions, name, m.date);
    assert PublishesAt(actions, |actions| - 1, name) <==> Publishes(w, a, name);
    assert RegistersAt(actions, |actions| - 1, m.date) <==> Registers(w, a, m.date);
    if name in w.executions {
      ReconciledExactly(front, name);
      ManifestStays(w, a, name);
      LastAction(w, a, name);
    } else {
      NewIsUnpublished(w, a, name);
      NoPublishYet(front, w, a, name, m.date);
    }
  }

  lemma NoPublishYet(front: seq<Action>, w: World, a: Action, name: string, date: string)
    requires w == After(front) && name !in w.executions
    ensures !Publishes(w, a, name)
    ensures !exists k: nat :: StandsSince(front, k, name, date)
  {
    hide After;
    if k: nat :| StandsSince(front, k, name, date) {
      UnknownNeverPublished(front, k, name);
    }
  }

  lemma LastAction(w: World, a: Action, name: string)
    requires Invariant(w) && name in w.executions
    ensures var m := w.executions[name].manifest;
      OwnReconciled(Step(w, a), m)
      <==> Publishes(w, a, name) || (OwnReconciled(w, m) && !Registers(w, a, m.date))
  {
    hide Invariant, Step;
    var m := w.executions[name].manifest;
    if Publishes(w, a, name) {
      PublishReconciles(w, a, name);
    } else if Registers(w, a, m.date) {
      RegistrationReplaces(w, a, m);
    } else if a.Publish? && Publishes(w, a, a.name) {
      OtherPublish(w, a, a.name, name);
    } else {
      OnlyRegistrationsAndPublishes(w, a, m.date);
    }
  }

  // ---- how the execution itself ended ----

  predicate Ended(phase: ExecutionPhase) {
    phase in {Published, Superseded, WorkflowFailed}
  }

  lemma EndStays(w: World, a: Action, name: string)
    requires name in w.executions && Ended(w.executions[name].phase)
    ensures name in Step(w, a).executions && Step(w, a).executions[name] == w.executions[name]
  {
    hide VerifiedKey, Classify;
  }

  lemma {:induction false} EndStaysForever(actions: seq<Action>, more: seq<Action>, name: string)
    requires name in After(actions).executions && Ended(After(actions).executions[name].phase)
    ensures name in After(actions + more).executions
    ensures After(actions + more).executions[name] == After(actions).executions[name]
  {
    hide Step;
    if more == [] {
      assert actions + more == actions;
    } else {
      var last := |more| - 1;
      EndStaysForever(actions, more[..last], name);
      assert (actions + more)[..|actions + more| - 1] == actions + more[..last];
      EndStays(After(actions + more[..last]), more[last], name);
    }
  }

  lemma PublishEnds(w: World, a: Action, name: string)
    requires Publishes(w, a, name)
    ensures name in Step(w, a).executions
    ensures Step(w, a).executions[name].phase == if a.reported then Published else WorkflowFailed
  {
  }

  /** A publishing update decides how its execution ends, for good. */
  lemma PublishDecidesEnd(actions: seq<Action>, k: nat, name: string)
    requires PublishesAt(actions, k, name)
    ensures name in After(actions).executions
    ensures After(actions).executions[name].phase == if actions[k].reported then Published else WorkflowFailed
  {
    hide Step, Publishes;
    var prefix := actions[..k + 1];
    assert prefix[..k] == actions[..k] && actions == prefix + actions[k + 1..];
    PublishEnds(After(actions[..k]), actions[k], name);
    EndStaysForever(prefix, actions[k + 1..], name);
  }

  /**
   A failed workflow did commit its publication exactly if its publishing update met its condition, the reply
   was lost, and no later registration replaced the record.
   */
  lemma FailedYetReconciledExactly(actions: seq<Action>, name: string)
    requires name in After(actions).executions && After(actions).executions[name].phase == WorkflowFailed
    ensures var m := After(actions).executions[name].manifest;
      OwnReconciled(After(actions), m)
      <==> exists k: nat :: StandsSince(actions, k, name, m.date) && actions[k].Publish? && !actions[k].reported
  {
    hide After, OwnReconciled;
    var m := After(actions).executions[name].manifest;
    ReconciledExactly(actions, name);
    if k: nat :| StandsSince(actions, k, name, m.date) {
      PublishDecidesEnd(actions, k, name);
      assert StandsSince(actions, k, name, m.date) && actions[k].Publish? && !actions[k].reported;
    }
  }

  // ---- a failing input for "no authoritative status was committed" ----

  /** One delivery carried through every stage, whose publishing update takes effect but whose reply is lost. */
  function LostReply(m: Manifest): seq<Action> {
    var name := ExecutionName(m);
    [Deliver(0, m), Update(0, true), Start(0, true),
     PassStage(name), PassStage(name), PassStage(name), PassStage(name), PassStage(name),
     WriteEvidence(name, true), Publish(name, false)]
  }

  lemma Stepwise(actions: seq<Action>, k: nat)
    requires k < |actions|
    ensures After(actions[..k + 1]) == Step(After(actions[..k]), actions[k])
  {
    hide Step;
    assert actions[..k + 1][..k] == actions[..k];
  }

  /** The workflow ends failed and the date is reconciled at its revision. */
  lemma FailedWorkflowHasPublished(m: Manifest)
    requires Wellformed(m)
    ensures var w, name := After(LostReply(m)), ExecutionName(m);
      && name in w.executions && w.executions[name] == Execution(m, GLUE_STAGES, WorkflowFailed)
      && OwnReconciled(w, m)
  {
    hide ExecutionName, VerifiedKey, Wellformed, Step;
    var s, name := LostReply(m), ExecutionName(m);
    assert s[..0] == [] && s[..10] == s;
    StartedRight(m);
    PassesStage(s, 3, name, m);
    PassesStage(s, 4, name, m);
    PassesStage(s, 5, name, m);
    PassesStage(s, 6, name, m);
    PassesStage(s, 7, name, m);
    Stepwise(s, 8);
    Stepwise(s, 9);
    WritesAndPublishes(After(s[..8]), name, m);
  }

  ghost predicate AtStage(w: World, name: string, m: Manifest, passed: nat) {
    && name in w.executions && w.executions[name] == Execution(m, passed, Working)
    && w.records == map[m.date := Record(m.revision, m.sha, VerifiedKey(m), Processing)]
  }

  lemma StartedRight(m: Manifest)
    requires Wellformed(m)
    ensures AtStage(After(LostReply(m)[..3]), ExecutionName(m), m, 0)
  {
    hide ExecutionName, VerifiedKey;
    var s := LostReply(m);
    assert s[..0] == [];
    Stepwise(s, 0);
    Stepwise(s, 1);
    Stepwise(s, 2);
    var one := DoDeliver(EMPTY_WORLD, 0, m);
    var two := DoUpdate(one, 0, true);
    var three := DoStart(two, 0, true);
    assert two.loaders[0] == Loader(m, Starting(ActiveRevision));
  }

  lemma PassesStage(s: seq<Action>, k: nat, name: string, m: Manifest)
    requires 3 <= k < 8 && k < |s| && s[k] == PassStage(name)
    requires AtStage(After(s[..k]), name, m, k - 3)
    ensures AtStage(After(s[..k + 1]), name, m, k - 2)
  {
    hide After, VerifiedKey;
    Stepwise(s, k);
  }

  lemma WritesAndPublishes(w: World, name: string, m: Manifest)
    requires AtStage(w, name, m, GLUE_STAGES)
    ensures var after := Step(Step(w, WriteEvidence(name, true)), Publish(name, false));
      && name in after.executions && after.executions[name] == Execution(m, GLUE_STAGES, WorkflowFailed)
      && OwnReconciled(after, m)
  {
    hide VerifiedKey;
    var written := DoWriteEvidence(w, name, true);
    assert written.executions[name] == Execution(m, GLUE_STAGES, AtGate);
  }
}
