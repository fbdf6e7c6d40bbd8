/**
 The identity publication protocol: reserve the event's identity with a conditional write, put the accepted
 object, mark it published.  Workers run concurrently; any of them may crash, lose a reply and retry, or be
 started again for a redelivered record, between any two actions.
 */
module Publication {
  import opened Numerals
  import opened Contracts
  import opened Settlement

  datatype RowStatus = Pending | Published

  datatype IdentityRow = IdentityRow(identity: Identity, status: RowStatus, acceptedKey: string)

  datatype WorkerResult = PublishedNow | AlreadyPublished | ConflictQuarantined | ConditionFailed | Crashed

  datatype WorkerPhase =
    | Reserving
    | ReadingBack
    | Putting
    | Marking
    | Quarantining
    | Done(result: WorkerResult)

  datatype Worker = Worker(payment: PaymentEvent, identity: Identity, phase: WorkerPhase)

  datatype World = World(
    table: map<string, IdentityRow>,
    bucket: map<string, PaymentEvent>,
    conflicts: map<string, PaymentEvent>,
    workers: map<nat, Worker>
  )

  const EMPTY_WORLD := World(map[], map[], map[], map[])

  /** An unreported action took effect but its reply was lost, so the worker repeats it. */
  datatype Action =
    | Receive(worker: nat, raw: Raw)
    | Reserve(worker: nat, reported: bool)
    | ReadBack(worker: nat)
    | PutObject(worker: nat, reported: bool)
    | Mark(worker: nat, reported: bool)
    | PutConflict(worker: nat)
    | Crash(worker: nat)

  function AcceptedKey(e: PaymentEvent): string {
    ("accepted/event_date=" + BusinessDate(e.eventTime)) + ['/'] + (e.eventId + ".json")
  }

  function ConflictKey(e: PaymentEvent): string {
    "identity-conflict/" + e.eventId + ".json"
  }

  /** An accepted object's key names one event id. */
  lemma KeyIdentifies(a: PaymentEvent, b: PaymentEvent)
    requires IsIdentifier(a.eventId) && IsIdentifier(b.eventId)
    requires AcceptedKey(a) == AcceptedKey(b)
    ensures a.eventId == b.eventId
  {
    var x, y := a.eventId + ".json", b.eventId + ".json";
    NoSlash(a.eventId);
    NoSlash(b.eventId);
    SplitAtLast("accepted/event_date=" + BusinessDate(a.eventTime), x,
                "accepted/event_date=" + BusinessDate(b.eventTime), y, '/');
    assert a.eventId == x[..|x| - 5] && b.eventId == y[..|y| - 5];
  }

  lemma NoSlash(id: string)
    requires IsIdentifier(id)
    ensures '/' !in id + ".json"
  {
    assert !IdentifierChar('/');
    var suffix := ".json";
    assert suffix[0] == '.' && suffix[1] == 'j' && suffix[2] == 's' && suffix[3] == 'o' && suffix[4] == 'n';
    assert '/' !in suffix;
  }

  // ---- actions ----

  predicate InPhase(w: World, id: nat, phase: WorkerPhase) {
    id in w.workers && w.workers[id].phase == phase
  }

  function WithWorker(w: World, id: nat, phase: WorkerPhase): World
    requires id in w.workers
  {
    w.(workers := w.workers[id := w.workers[id].(phase := phase)])
  }

  /** A worker is started for a payload that passed the contract gate. */
  function DoReceive(gate: Gate, w: World, id: nat, raw: Raw): World {
    var validated := ValidateEvent(gate, raw);
    if id in w.workers || validated.Err? then w
    else w.(workers := w.workers[id := Worker(validated.value, IdentityFingerprint(gate, raw), Reserving)])
  }

  /** attribute_not_exists(event_id) */
  function DoReserve(w: World, id: nat, reported: bool): World {
    if !InPhase(w, id, Reserving) then w
    else
      var worker := w.workers[id];
      var eventId := worker.payment.eventId;
      if eventId in w.table then WithWorker(w, id, if reported then ReadingBack else Reserving)
      else
        WithWorker(
          w.(table := w.table[eventId := IdentityRow(worker.identity, Pending, AcceptedKey(worker.payment))]),
          id, if reported then Putting else Reserving)
  }

  function DoReadBack(w: World, id: nat): World {
    if !InPhase(w, id, ReadingBack) || w.workers[id].payment.eventId !in w.table then w
    else
      var row := w.table[w.workers[id].payment.eventId];
      WithWorker(w, id,
                 if row.identity != w.workers[id].identity then Quarantining
                 else if row.status == Published then Done(AlreadyPublished)
                 else Putting)
  }

  function DoPut(w: World, id: nat, reported: bool): World {
    if !InPhase(w, id, Putting) then w
    else
      var payment := w.workers[id].payment;
      WithWorker(w.(bucket := w.bucket[AcceptedKey(payment) := payment]), id, if reported then Marking else Putting)
  }

  /** identity_sha256 = :fingerprint */
  predicate MayMark(w: World, worker: Worker) {
    worker.payment.eventId in w.table && w.table[worker.payment.eventId].identity == worker.identity
  }

  function DoMark(w: World, id: nat, reported: bool): World {
    if !InPhase(w, id, Marking) then w
    else
      var worker := w.workers[id];
      var eventId := worker.payment.eventId;
      if MayMark(w, worker) then
        WithWorker(w.(table := w.table[eventId := w.table[eventId].(status := Published)]), id,
                   if reported then Done(PublishedNow) else Marking)
      else WithWorker(w, id, Done(ConditionFailed))
  }

  function DoPutConflict(w: World, id: nat): World {
    if !InPhase(w, id, Quarantining) then w
    else
      var payment := w.workers[id].payment;
      WithWorker(w.(conflicts := w.conflicts[ConflictKey(payment) := payment]), id, Done(ConflictQuarantined))
  }

  function DoCrash(w: World, id: nat): World {
    if id in w.workers && !w.workers[id].phase.Done? then WithWorker(w, id, Done(Crashed)) else w
  }

  function Step(gate: Gate, w: World, a: Action): World {
    match a
    case Receive(id, raw) => DoReceive(gate, w, id, raw)
    case Reserve(id, reported) => DoReserve(w, id, reported)
    case ReadBack(id) => DoReadBack(w, id)
    case PutObject(id, reported) => DoPut(w, id, reported)
    case Mark(id, reported) => DoMark(w, id, reported)
    case PutConflict(id) => DoPutConflict(w, id)
    case Crash(id) => DoCrash(w, id)
  }

  function After(gate: Gate, actions: seq<Action>): World {
    if actions == [] then EMPTY_WORLD
    else Step(gate, After(gate, actions[..|actions| - 1]), actions[|actions| - 1])
  }

  // ---- the invariant ----

  ghost predicate RowRight(gate: Gate, w: World, eventId: string) {
    eventId in w.table ==>
      var row := w.table[eventId];
      var event := EventOfIdentity(gate, row.identity);
      && event.eventId == eventId && IsIdentifier(eventId)
      && row.acceptedKey == AcceptedKey(event)
      && (row.status == Published ==> row.acceptedKey in w.bucket)
  }

  ghost predicate ObjectRight(gate: Gate, w: World, key: string) {
    key in w.bucket ==>
      var e := w.bucket[key];
      && key == AcceptedKey(e) && WellFormed(e)
      && e.eventId in w.table
      && Business(e) == EventOfIdentity(gate, w.table[e.eventId].identity)
  }

  /** The reserved identity of the worker's event is the worker's own. */
  ghost predicate Owns(w: World, worker: Worker) {
    worker.payment.eventId in w.table && w.table[worker.payment.eventId].identity == worker.identity
  }

  ghost predicate LostTo(w: World, worker: Worker) {
    worker.payment.eventId in w.table && w.table[worker.payment.eventId].identity != worker.identity
  }

  ghost predicate WorkerRight(gate: Gate, w: World, worker: Worker) {
    && WellFormed(worker.payment)
    && Business(worker.payment) == EventOfIdentity(gate, worker.identity)
    && match worker.phase
       case Reserving => true
       case ReadingBack => worker.payment.eventId in w.table
       case Putting => Owns(w, worker)
       case Marking => Owns(w, worker) && AcceptedKey(worker.payment) in w.bucket
       case Quarantining => LostTo(w, worker)
       case Done(PublishedNow) => Owns(w, worker) && w.table[worker.payment.eventId].status == Published
       case Done(AlreadyPublished) => Owns(w, worker) && w.table[worker.payment.eventId].status == Published
       case Done(ConflictQuarantined) => LostTo(w, worker) && ConflictKey(worker.payment) in w.conflicts
       case Done(ConditionFailed) => false
       case Done(Crashed) => true
  }

  ghost predicate Invariant(gate: Gate, w: World) {
    && (forall eventId :: RowRight(gate, w, eventId))
    && (forall key :: ObjectRight(gate, w, key))
    && (forall id :: id in w.workers ==> WorkerRight(gate, w, w.workers[id]))
  }

  /** Identities and keys are permanent, pending may become published, objects change only their delivery time. */
  ghost predicate Forward(w: World, after: World) {
    && (forall eventId :: eventId in w.table ==>
          && eventId in after.table
          && after.table[eventId].identity == w.table[eventId].identity
          && after.table[eventId].acceptedKey == w.table[eventId].acceptedKey
          && (w.table[eventId].status == Published ==> after.table[eventId].status == Published))
    && (forall key :: key in w.bucket ==>
          key in after.bucket && Business(after.bucket[key]) == Business(w.bucket[key]))
    && w.conflicts.Keys <= after.conflicts.Keys
  }
}
