/** The manifest loader's register-and-start tail as one uninterrupted call. */
module RevisionHandler {
  import opened Revisions

  /** The four actions of one loader with nothing in between. */
  function Uninterrupted(w: World, id: nat, m: Manifest): World {
    DoStart(DoReadBack(DoUpdate(DoDeliver(w, id, m), id, true), id), id, true)
  }

  class SettlementControl {
    var records: map<string, Record>
    var executions: map<string, Execution>

    constructor ()
      ensures records == map[] && executions == map[]
    {
      records, executions := map[], map[];
    }

    /** Conditional update, and only if that fails a read of the standing record. */
    method RegisterRevision(m: Manifest) returns (outcome: LoaderPhase)
      modifies this`records
      ensures MayRegister(old(records), m) ==>
                outcome == Starting(ActiveRevision) && records == Registered(old(records), m)
      ensures !MayRegister(old(records), m) ==>
                outcome == Classify(old(records)[m.date], m) && records == old(records)
    {
      if MayRegister(records, m) {
        records := Registered(records, m);
        return Starting(ActiveRevision);
      }
      var existing := records[m.date];
      if existing.revision == m.revision && existing.sha == m.sha { return Starting(DuplicateRevision); }
      if existing.revision > m.revision { return Finished(StaleManifest); }
      outcome := Finished(ReusedRevision(existing));
    }

    /** Registers the revision and starts its execution, exactly as an uninterrupted loader of the protocol. */
    method RegisterAndStart(m: Manifest, ghost w: World, ghost id: nat) returns (result: LoaderResult)
      requires Wellformed(m) && id !in w.loaders
      requires w.records == records && w.executions == executions
      modifies this
      ensures var after := Uninterrupted(w, id, m);
        && records == after.records && executions == after.executions
        && after.loaders[id] == Loader(m, Finished(result))
    {
      var outcome := RegisterRevision(m);
      if outcome.Finished? { return outcome.result; }
      var name := ExecutionName(m);
      if name in executions { return DuplicateManifest; }
      executions := executions[name := Execution(m, 0, Working)];
      result := StartResult(outcome.registration);
    }
  }
}
