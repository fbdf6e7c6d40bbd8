/**
 What a manifest loader's answer says about what it did itself: which of its own calls met their conditions.  And no
 two manifests share a verified object.
 */
module LoaderOutcomes {
  import opened Numerals
  import opened Revisions

  // ---- verified objects ----

  /** The key of a verified copy names date, revision and full sha. */
  lemma VerifiedKeyIdentifies(a: Manifest, b: Manifest)
    requires Wellformed(a) && Wellformed(b)
    ensures VerifiedKey(a) == VerifiedKey(b) <==> a == b
  {
    if VerifiedKey(a) == VerifiedKey(b) {
      var key := VerifiedKey(a);
      var prefix := |"settlements/business_date="|;
      assert a.date == key[prefix..prefix + 10] && b.date == key[prefix..prefix + 10];
      var x, y := "sha256=" + a.sha + "/data.jsonl", "sha256=" + b.sha + "/data.jsonl";
      KeyTail(a, x);
      KeyTail(b, y);
      SplitAtFirst(Decimal(a.revision), x, Decimal(b.revision), y, '/');
      DecimalInjective(a.revision, b.revision);
      assert a.sha == x[7..|x| - 11] && b.sha == y[7..|y| - 11];
    }
  }

  lemma KeyTail(m: Manifest, tail: string)
    requires |m.date| == 10 && tail == "sha256=" + m.sha + "/data.jsonl"
    ensures |VerifiedKey(m)| >= |"settlements/business_date="| + 20
    ensures VerifiedKey(m)[|"settlements/business_date="| + 20..] == Decimal(m.revision) + ['/'] + tail
  {
    var head := "settlements/business_date=" + m.date + "/revision=";
    var rest := Decimal(m.revision) + ['/'] + tail;
    assert "/sha256=" == ['/'] + "sha256=";
    assert VerifiedKey(m) == head + rest;
  }

  // ---- execution names ----

  /** The first sixteen characters agree; a shorter sha agrees only with itself. */
  ghost predicate SameStart(a: string, b: string) {
    if |a| < 16 || |b| < 16 then a == b else forall i :: 0 <= i < 16 ==> a[i] == b[i]
  }

  /** Two manifests share an execution name exactly if date, revision and the first sixteen characters of the sha agree. */
  lemma NamesAreExact(a: Manifest, b: Manifest)
    requires Wellformed(a) && Wellformed(b)
    ensures ExecutionName(a) == ExecutionName(b) <==> a.date == b.date && a.revision == b.revision && SameStart(a.sha, b.sha)
  {
    hide ExecutionName;
    NamesIdentify(a, b);
    TruncationIsExact(a.sha, b.sha);
  }

  lemma TruncationIsExact(a: string, b: string)
    ensures Truncated(a) == Truncated(b) <==> SameStart(a, b)
  {
    if |a| >= 16 && |b| >= 16 {
      if Truncated(a) == Truncated(b) {
        forall i | 0 <= i < 16 ensures a[i] == b[i] { assert Truncated(a)[i] == a[i] && Truncated(b)[i] == b[i]; }
      }
      if SameStart(a, b) { assert a[..16] == b[..16]; }
    } else if Truncated(a) == Truncated(b) {
      assert |Truncated(a)| == |Truncated(b)|;
    }
  }

  // ---- a loader's own calls ----

  /** The loader's update meets its condition and is answered. */
  ghost predicate Registers(w: World, a: Action, id: nat) {
    a == Update(id, true) && InPhase(w, id, Updating) && MayRegister(w.records, w.loaders[id].manifest)
  }

  /** The loader reads back its own revision and sha. */
  ghost predicate Confirms(w: World, a: Action, id: nat) {
    && a == ReadBack(id) && InPhase(w, id, ReadingBack)
    && var m := w.loaders[id].manifest;
    m.date in w.records && w.records[m.date].revision == m.revision && w.records[m.date].sha == m.sha
  }

  /** The loader's start is answered; the execution is its own, or was there before. */
  ghost predicate Creates(w: World, a: Action, id: nat) {
    a == Start(id, true) && IsStarting(w, id) && ExecutionName(w.loaders[id].manifest) !in w.executions
  }

  ghost predicate Finds(w: World, a: Action, id: nat) {
    a == Start(id, true) && IsStarting(w, id) && ExecutionName(w.loaders[id].manifest) in w.executions
  }

  /** Some action of the sequence did this when it was taken. */
  ghost predicate Happened(actions: seq<Action>, did: (World, Action) -> bool) {
    exists k: nat :: HappensAt(actions, k, did)
  }

  ghost predicate HappensAt(actions: seq<Action>, k: nat, did: (World, Action) -> bool) {
    k < |actions| && did(After(actions[..k]), actions[k])
  }

  ghost function Registering(id: nat): (World, Action) -> bool { (w: World, a: Action) => Registers(w, a, id) }

  ghost function Confirming(id: nat): (World, Action) -> bool { (w: World, a: Action) => Confirms(w, a, id) }

  ghost function Creating(id: nat): (World, Action) -> bool { (w: World, a: Action) => Creates(w, a, id) }

  ghost function Finding(id: nat): (World, Action) -> bool { (w: World, a: Action) => Finds(w, a, id) }

  lemma HappenedLast(actions: seq<Action>, did: (World, Action) -> bool)
    requires actions != []
    ensures var last := |actions| - 1;
      Happened(actions, did) <==> Happened(actions[..last], did) || did(After(actions[..last]), actions[last])
  {
    hide After;
    var last := |actions| - 1;
    var front := actions[..last];
    assert HappensAt(actions, last, did) <==> did(After(front), actions[last]);
    forall k: nat | k < last ensures HappensAt(actions, k, did) <==> HappensAt(front, k, did) {
      assert actions[..k] == front[..k];
    }
    if k: nat :| HappensAt(actions, k, did) { assert k < last || k == last; }
    if k: nat :| HappensAt(front, k, did) { assert HappensAt(actions, k, did); }
  }

  ghost predicate HasPhase(w: World, id: nat, phases: set<LoaderPhase>) {
    id in w.loaders && w.loaders[id].phase in phases
  }

  /** What the loader has done so far, as its phase tells. */
  ghost predicate Tells(w: World, id: nat, registered: bool, confirmed: bool, created: bool, found: bool) {
    && (HasPhase(w, id, {Starting(ActiveRevision), Finished(Verified)}) ==> registered)
    && (HasPhase(w, id, {Starting(DuplicateRevision), Finished(RecoveredDuplicate)}) ==> confirmed)
    && (HasPhase(w, id, {Finished(Verified), Finished(RecoveredDuplicate)}) ==> created)
    && (HasPhase(w, id, {Finished(DuplicateManifest)}) ==> found)
    && (registered ==>
          HasPhase(w, id, {Starting(ActiveRevision), Finished(Verified), Finished(DuplicateManifest), Finished(Crashed)}))
    && (confirmed ==>
          HasPhase(w, id, {Starting(DuplicateRevision), Finished(RecoveredDuplicate), Finished(DuplicateManifest), Finished(Crashed)}))
    && (created ==> HasPhase(w, id, {Finished(Verified), Finished(RecoveredDuplicate)}))
    && (found ==> HasPhase(w, id, {Finished(DuplicateManifest)}))
  }

  lemma StepTells(w: World, a: Action, id: nat, registered: bool, confirmed: bool, created: bool, found: bool)
    requires Tells(w, id, registered, confirmed, created, found)
    ensures Tells(Step(w, a), id, registered || Registers(w, a, id), confirmed || Confirms(w, a, id),
                  created || Creates(w, a, id), found || Finds(w, a, id))
  {
    hide ExecutionName, VerifiedKey, Wellformed, MayRegister, MayPublish, Registered, Reconcile;
  }

  lemma {:induction false} AlwaysTells(actions: seq<Action>, id: nat)
    ensures Tells(After(actions), id, Happened(actions, Registering(id)), Happened(actions, Confirming(id)),
                  Happened(actions, Creating(id)), Happened(actions, Finding(id)))
  {
    hide Step, Tells, Registers, Confirms, Creates, Finds, Happened;
    if actions == [] {
      NobodyAtFirst(id);
      NothingHappened(Registering(id));
      NothingHappened(Confirming(id));
      NothingHappened(Creating(id));
      NothingHappened(Finding(id));
    } else {
      var last := |actions| - 1;
      var front := actions[..last];
      AlwaysTells(front, id);
      HappenedLast(actions, Registering(id));
      HappenedLast(actions, Confirming(id));
      HappenedLast(actions, Creating(id));
      HappenedLast(actions, Finding(id));
      StepTells(After(front), actions[last], id, Happened(front, Registering(id)), Happened(front, Confirming(id)),
                Happened(front, Creating(id)), Happened(front, Finding(id)));
    }
  }

  lemma NothingHappened(did: (World, Action) -> bool)
    ensures !Happened([], did)
  {
  }

  lemma NobodyAtFirst(id: nat)
    ensures Tells(EMPTY_WORLD, id, false, false, false, false)
  {
  }

  /**
   A loader answers "verified" exactly if its own update registered the revision and its own start created the
   execution, "recovered duplicate" exactly if it read its own revision back and then created the execution, and
   "duplicate manifest" exactly if its start met an existing execution.
   */
  lemma AnswersAreExact(actions: seq<Action>, id: nat)
    ensures var w := After(actions);
      && (InPhase(w, id, Finished(Verified)) <==> Happened(actions, Registering(id)) && Happened(actions, Creating(id)))
      && (InPhase(w, id, Finished(RecoveredDuplicate))
          <==> Happened(actions, Confirming(id)) && Happened(actions, Creating(id)))
      && (InPhase(w, id, Finished(DuplicateManifest)) <==> Happened(actions, Finding(id)))
  {
    hide After, Happened;
    AlwaysTells(actions, id);
  }
}
