/**
 The settlement revision protocol: concurrent manifest loaders register a revision with one conditional
 write, may have to read back, and start a named execution; executions pass their stages and publish with
 another conditional write.  Every action is atomic; any interleaving, crash, lost reply, retry and
 redelivery is an action sequence.
 */
module Revisions {
  import opened Numerals

  datatype Manifest = Manifest(date: string, revision: nat, sha: string)

  datatype PublicationStatus = Processing | Reconciled

  datatype Record = Record(revision: nat, sha: string, verifiedKey: string, status: PublicationStatus)

  datatype Registration = ActiveRevision | DuplicateRevision

  datatype LoaderResult =
    | Verified
    | RecoveredDuplicate
    | DuplicateManifest
    | StaleManifest
    | ReusedRevision(read: Record)
    | Crashed

  datatype LoaderPhase =
    | Updating
    | ReadingBack
    | Starting(registration: Registration)
    | Finished(result: LoaderResult)

  datatype Loader = Loader(manifest: Manifest, phase: LoaderPhase)

  datatype ExecutionPhase = Working | AtGate | Published | Superseded | WorkflowFailed

  /** `passed` counts the Glue stages completed: validate, ingest, reconstruct, post, reconcile. */
  datatype Execution = Execution(manifest: Manifest, passed: nat, phase: ExecutionPhase)

  const GLUE_STAGES: nat := 5

  /** `log` is bookkeeping: the manifests registered so far, in order. */
  datatype World = World(
    records: map<string, Record>,
    loaders: map<nat, Loader>,
    executions: map<string, Execution>,
    evidence: set<Manifest>,
    log: seq<Manifest>
  )

  const EMPTY_WORLD := World(map[], map[], map[], {}, [])

  /** An unreported action took effect but its reply was lost. */
  datatype Action =
    | Deliver(loader: nat, manifest: Manifest)
    | Update(loader: nat, reported: bool)
    | ReadBack(loader: nat)
    | Start(loader: nat, reported: bool)
    | CrashLoader(loader: nat)
    | PassStage(name: string)
    | FailExecution(name: string)
    | WriteEvidence(name: string, reported: bool)
    | Publish(name: string, reported: bool)

  // ---- names ----

  function Truncated(sha: string): string {
    if |sha| < 16 then sha else sha[..16]
  }

  function ExecutionName(m: Manifest): string {
    m.date + "-r" + (Decimal(m.revision) + ['-'] + Truncated(m.sha))
  }

  function VerifiedKey(m: Manifest): string {
    "settlements/business_date=" + m.date + "/revision=" + Decimal(m.revision) + "/sha256=" + m.sha + "/data.jsonl"
  }

  /** A delivered manifest: its date is a ten-character calendar date and its revision is positive. */
  predicate Wellformed(m: Manifest) {
    |m.date| == 10 && m.revision >= 1
  }

  /** Execution names identify date and revision exactly, and the sha up to truncation. */
  lemma NamesIdentify(a: Manifest, b: Manifest)
    requires Wellformed(a) && Wellformed(b)
    ensures ExecutionName(a) == ExecutionName(b)
       <==> a.date == b.date && a.revision == b.revision && Truncated(a.sha) == Truncated(b.sha)
  {
    var left, right := ExecutionName(a), ExecutionName(b);
    var x := Decimal(a.revision) + ['-'] + Truncated(a.sha);
    var y := Decimal(b.revision) + ['-'] + Truncated(b.sha);
    if left == right {
      assert a.date == left[..10] && b.date == right[..10];
      assert x == left[12..] && y == right[12..];
      SplitAtFirst(Decimal(a.revision), Truncated(a.sha), Decimal(b.revision), Truncated(b.sha), '-');
      DecimalInjective(a.revision, b.revision);
    }
  }

  // ---- the two conditional writes and the read ----

  /** attribute_not_exists(revision) OR revision < :revision */
  predicate MayRegister(records: map<string, Record>, m: Manifest) {
    m.date !in records || records[m.date].revision < m.revision
  }

  function Registered(records: map<string, Record>, m: Manifest): map<string, Record> {
    records[m.date := Record(m.revision, m.sha, VerifiedKey(m), Processing)]
  }

  /** What the loader concludes from the record that it reads after a failed write. */
  function Classify(read: Record, m: Manifest): LoaderPhase {
    if read.revision == m.revision && read.sha == m.sha then Starting(DuplicateRevision)
    else if read.revision > m.revision then Finished(StaleManifest)
    else Finished(ReusedRevision(read))
  }

  /** revision = :revision AND manifest_sha256 = :sha */
  predicate MayPublish(records: map<string, Record>, m: Manifest) {
    m.date in records && records[m.date].revision == m.revision && records[m.date].sha == m.sha
  }

  function StartResult(registration: Registration): LoaderResult {
    match registration
    case ActiveRevision => Verified
    case DuplicateRevision => RecoveredDuplicate
  }

  // ---- actions ----

  function WithLoader(w: World, id: nat, phase: LoaderPhase): World
    requires id in w.loaders
  {
    w.(loaders := w.loaders[id := w.loaders[id].(phase := phase)])
  }

  function WithExecution(w: World, name: string, passed: nat, phase: ExecutionPhase): World
    requires name in w.executions
  {
    w.(executions := w.executions[name := Execution(w.executions[name].manifest, passed, phase)])
  }

  predicate InPhase(w: World, id: nat, phase: LoaderPhase) {
    id in w.loaders && w.loaders[id].phase == phase
  }

  predicate IsStarting(w: World, id: nat) {
    id in w.loaders && w.loaders[id].phase.Starting?
  }

  predicate Runs(w: World, name: string, phase: ExecutionPhase) {
    name in w.executions && w.executions[name].phase == phase
  }

  function DoDeliver(w: World, id: nat, m: Manifest): World {
    if id in w.loaders || !Wellformed(m) then w else w.(loaders := w.loaders[id := Loader(m, Updating)])
  }

  function DoUpdate(w: World, id: nat, reported: bool): World {
    if !InPhase(w, id, Updating) then w
    else
      var m := w.loaders[id].manifest;
      if MayRegister(w.records, m) then
        WithLoader(w.(records := Registered(w.records, m), log := w.log + [m]), id,
                   if reported then Starting(ActiveRevision) else Updating)
      else
        WithLoader(w, id, if reported then ReadingBack else Updating)
  }

  function DoReadBack(w: World, id: nat): World {
    if !InPhase(w, id, ReadingBack) || w.loaders[id].manifest.date !in w.records then w
    else
      var m := w.loaders[id].manifest;
      WithLoader(w, id, Classify(w.records[m.date], m))
  }

  function DoStart(w: World, id: nat, reported: bool): World {
    if !IsStarting(w, id) then w
    else
      var m := w.loaders[id].manifest;
      var phase := w.loaders[id].phase;
      var name := ExecutionName(m);
      if name in w.executions then
        WithLoader(w, id, if reported then Finished(DuplicateManifest) else phase)
      else
        WithLoader(w.(executions := w.executions[name := Execution(m, 0, Working)]), id,
                   if reported then Finished(StartResult(phase.registration)) else phase)
  }

  function DoCrash(w: World, id: nat): World {
    if id in w.loaders && !w.loaders[id].phase.Finished? then WithLoader(w, id, Finished(Crashed)) else w
  }

  function DoPassStage(w: World, name: string): World {
    if Runs(w, name, Working) && w.executions[name].passed < GLUE_STAGES
    then WithExecution(w, name, w.executions[name].passed + 1, Working) else w
  }

  function DoFail(w: World, name: string): World {
    if Runs(w, name, Working) || Runs(w, name, AtGate)
    then WithExecution(w, name, w.executions[name].passed, WorkflowFailed) else w
  }

  function DoWriteEvidence(w: World, name: string, reported: bool): World {
    if Runs(w, name, Working) && w.executions[name].passed == GLUE_STAGES
    then WithExecution(w.(evidence := w.evidence + {w.executions[name].manifest}), name, GLUE_STAGES,
                       if reported then AtGate else WorkflowFailed)
    else w
  }

  function Reconcile(records: map<string, Record>, m: Manifest): map<string, Record>
    requires m.date in records
  {
    records[m.date := records[m.date].(status := Reconciled)]
  }

  function DoPublish(w: World, name: string, reported: bool): World {
    if !Runs(w, name, AtGate) then w
    else
      var x := w.executions[name];
      if MayPublish(w.records, x.manifest) then
        WithExecution(w.(records := Reconcile(w.records, x.manifest)),
                      name, x.passed, if reported then Published else WorkflowFailed)
      else
        WithExecution(w, name, x.passed, if reported then Superseded else WorkflowFailed)
  }

  /** One atomic action; an action whose actor is not in the right phase does nothing. */
  function Step(w: World, a: Action): World {
    match a
    case Deliver(id, m) => DoDeliver(w, id, m)
    case Update(id, reported) => DoUpdate(w, id, reported)
    case ReadBack(id) => DoReadBack(w, id)
    case Start(id, reported) => DoStart(w, id, reported)
    case CrashLoader(id) => DoCrash(w, id)
    case PassStage(name) => DoPassStage(w, name)
    case FailExecution(name) => DoFail(w, name)
    case WriteEvidence(name, reported) => DoWriteEvidence(w, name, reported)
    case Publish(name, reported) => DoPublish(w, name, reported)
  }

  function After(actions: seq<Action>): World {
    if actions == [] then EMPTY_WORLD
    else Step(After(actions[..|actions| - 1]), actions[|actions| - 1])
  }

  // ---- the invariant ----

  /** Registrations of one date carry strictly increasing revisions. */
  ghost predicate Increasing(log: seq<Manifest>) {
    forall i, j :: 0 <= i < j < |log| && log[i].date == log[j].date ==> log[i].revision < log[j].revision
  }

  function ManifestOf(date: string, r: Record): Manifest {
    Manifest(date, r.revision, r.sha)
  }

  /** The record of a date is its latest registration. */
  ghost predicate RecordsLatest(w: World) {
    && (forall m :: m in w.log ==>
          Wellformed(m) && m.date in w.records && m.revision <= w.records[m.date].revision)
    && (forall date :: date in w.records ==>
          && ManifestOf(date, w.records[date]) in w.log
          && w.records[date].verifiedKey == VerifiedKey(ManifestOf(date, w.records[date])))
  }

  ghost predicate LoaderRight(w: World, l: Loader) {
    && Wellformed(l.manifest)
    && match l.phase
       case Updating => true
       case ReadingBack => !MayRegister(w.records, l.manifest)
       case Starting(_) => l.manifest in w.log
       case Finished(Verified) => Started(w, l.manifest)
       case Finished(RecoveredDuplicate) => Started(w, l.manifest)
       case Finished(DuplicateManifest) => Started(w, l.manifest)
       case Finished(StaleManifest) =>
         l.manifest.date in w.records && w.records[l.manifest.date].revision > l.manifest.revision
       case Finished(ReusedRevision(read)) => read.revision == l.manifest.revision && read.sha != l.manifest.sha
       case Finished(Crashed) => true
  }

  ghost predicate Started(w: World, m: Manifest) {
    ExecutionName(m) in w.executions && w.executions[ExecutionName(m)].manifest == m
  }

  ghost predicate ExecutionRight(w: World, name: string, x: Execution) {
    && name == ExecutionName(x.manifest)
    && x.manifest in w.log && x.manifest.date in w.records
    && x.passed <= GLUE_STAGES
    && (x.phase in {AtGate, Published, Superseded} ==> x.passed == GLUE_STAGES && x.manifest in w.evidence)
    && (x.phase == Superseded ==> w.records[x.manifest.date].revision > x.manifest.revision)
  }

  /** A reconciled record belongs to an execution of exactly that revision and sha, through all stages. */
  ghost predicate Justified(w: World, m: Manifest) {
    && Started(w, m)
    && w.executions[ExecutionName(m)].passed == GLUE_STAGES
    && m in w.evidence
  }

  ghost predicate Invariant(w: World) {
    && Increasing(w.log)
    && RecordsLatest(w)
    && (forall id :: id in w.loaders ==> LoaderRight(w, w.loaders[id]))
    && (forall name :: name in w.executions ==>
          ExecutionRight(w, name, w.executions[name]))
    && (forall date :: date in w.records && w.records[date].status == Reconciled ==>
          Justified(w, ManifestOf(date, w.records[date])))
  }

  // ---- consequences of the log ----

  /** At most one sha is ever registered for a date and revision. */
  lemma OneSha(log: seq<Manifest>, a: Manifest, b: Manifest)
    requires Increasing(log) && a in log && b in log
    requires a.date == b.date && a.revision == b.revision
    ensures a == b
  {
    var i :| 0 <= i < |log| && log[i] == a;
    var j :| 0 <= j < |log| && log[j] == b;
  }
}
