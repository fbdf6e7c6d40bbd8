/**
 What may go wrong at any moment, and what it leaves behind: a lost reply has the full effect of its call, a crash or a
 failing stage has none but on its own actor.
 */
module FaultLaws {
  import opened Contracts
  import Revisions
  import Publication

  // ---- settlement revisions ----

  ghost predicate SameControl(a: Revisions.World, b: Revisions.World) {
    a.records == b.records && a.evidence == b.evidence && a.log == b.log
  }

  /** Whether the reply to a call arrives makes no difference to records, evidence and existing executions. */
  lemma LostReplyHasFullEffect(w: Revisions.World, id: nat, name: string)
    ensures SameControl(Revisions.Step(w, Revisions.Update(id, true)), Revisions.Step(w, Revisions.Update(id, false)))
    ensures SameControl(Revisions.Step(w, Revisions.Start(id, true)), Revisions.Step(w, Revisions.Start(id, false)))
    ensures Revisions.Step(w, Revisions.Start(id, true)).executions == Revisions.Step(w, Revisions.Start(id, false)).executions
    ensures SameControl(Revisions.Step(w, Revisions.WriteEvidence(name, true)),
                        Revisions.Step(w, Revisions.WriteEvidence(name, false)))
    ensures SameControl(Revisions.Step(w, Revisions.Publish(name, true)), Revisions.Step(w, Revisions.Publish(name, false)))
  {
    hide Revisions.VerifiedKey, Revisions.ExecutionName;
  }

  /** Any loader that has not finished may crash, and nothing but that loader changes. */
  lemma AnyLoaderMayCrash(w: Revisions.World, id: nat)
    requires id in w.loaders && !w.loaders[id].phase.Finished?
    ensures Revisions.Step(w, Revisions.CrashLoader(id))
         == w.(loaders := w.loaders[id := Revisions.Loader(w.loaders[id].manifest, Revisions.Finished(Revisions.Crashed))])
  {
  }

  /** Any execution that has not ended may fail, at whichever stage, and nothing but that execution changes. */
  lemma AnyStageMayFail(w: Revisions.World, name: string)
    requires name in w.executions && w.executions[name].phase in {Revisions.Working, Revisions.AtGate}
    ensures var x := w.executions[name];
      Revisions.Step(w, Revisions.FailExecution(name))
      == w.(executions := w.executions[name := Revisions.Execution(x.manifest, x.passed, Revisions.WorkflowFailed)])
  {
  }

  // ---- identity publication ----

  ghost predicate SameStores(a: Publication.World, b: Publication.World) {
    a.table == b.table && a.bucket == b.bucket && a.conflicts == b.conflicts
  }

  lemma LostReplyPublishes(gate: Gate, w: Publication.World, id: nat)
    ensures SameStores(Publication.Step(gate, w, Publication.Reserve(id, true)),
                       Publication.Step(gate, w, Publication.Reserve(id, false)))
    ensures SameStores(Publication.Step(gate, w, Publication.PutObject(id, true)),
                       Publication.Step(gate, w, Publication.PutObject(id, false)))
    ensures SameStores(Publication.Step(gate, w, Publication.Mark(id, true)),
                       Publication.Step(gate, w, Publication.Mark(id, false)))
  {
    hide Publication.AcceptedKey;
  }

  /** Any worker that is not done may crash, and nothing but that worker changes. */
  lemma AnyWorkerMayCrash(gate: Gate, w: Publication.World, id: nat)
    requires id in w.workers && !w.workers[id].phase.Done?
    ensures Publication.Step(gate, w, Publication.Crash(id))
         == w.(workers := w.workers[id := w.workers[id].(phase := Publication.Done(Publication.Crashed))])
  {
  }
}
