/** Safety of the identity publication protocol over every action sequence, and completion of a retry. */
module PublicationLaws {
  import opened Contracts
  import opened History
  import opened Settlement
  import Pipeline
  import opened Publication

  // ---- composing the invariant from what changed ----

  lemma WorkerStaysRight(gate: Gate, w: World, after: World, worker: Worker)
    requires Forward(w, after) && WorkerRight(gate, w, worker)
    ensures WorkerRight(gate, after, worker)
  {
    hide EventOfIdentity, WellFormed, AcceptedKey, ConflictKey, Business;
  }

  ghost predicate WorkersRight(gate: Gate, w: World, after: World) {
    forall id :: id in after.workers ==>
      (id in w.workers && after.workers[id] == w.workers[id]) || WorkerRight(gate, after, after.workers[id])
  }

  lemma Compose(gate: Gate, w: World, after: World)
    requires Invariant(gate, w) && Forward(w, after) && WorkersRight(gate, w, after)
    requires forall eventId :: RowRight(gate, after, eventId)
    requires forall key :: ObjectRight(gate, after, key)
    ensures Invariant(gate, after)
  {
    hide WorkerRight, RowRight, ObjectRight, Forward;
    forall id | id in after.workers ensures WorkerRight(gate, after, after.workers[id]) {
      if id in w.workers && after.workers[id] == w.workers[id] {
        WorkerStaysRight(gate, w, after, w.workers[id]);
      }
    }
  }

  lemma WorkerWasRight(gate: Gate, w: World, id: nat)
    requires Invariant(gate, w)
    ensures id in w.workers ==> WorkerRight(gate, w, w.workers[id])
  {
    hide WorkerRight, RowRight, ObjectRight;
  }

  lemma SameStores(gate: Gate, w: World, after: World)
    requires Invariant(gate, w) && after.table == w.table && after.bucket == w.bucket
    ensures forall eventId :: RowRight(gate, after, eventId)
    ensures forall key :: ObjectRight(gate, after, key)
  {
    hide EventOfIdentity, WellFormed, AcceptedKey, Business, WorkerRight;
    forall eventId ensures RowRight(gate, after, eventId) {
      assert RowRight(gate, w, eventId);
    }
    forall key ensures ObjectRight(gate, after, key) {
      assert ObjectRight(gate, w, key);
    }
  }

  lemma KeyIsBusiness(e: PaymentEvent)
    ensures AcceptedKey(Business(e)) == AcceptedKey(e)
  {
  }

  // ---- one lemma per action ----

  lemma ReceiveKeeps(gate: Gate, w: World, id: nat, raw: Raw)
    requires Invariant(gate, w)
    ensures var after := DoReceive(gate, w, id, raw); Invariant(gate, after) && Forward(w, after)
  {
    hide Invariant, ValidateEvent, IdentityFingerprint, EventOfIdentity, WellFormed, Business;
    var after := DoReceive(gate, w, id, raw);
    if ValidateEvent(gate, raw).Ok? { IdentityDeterminesEvent(gate, raw); }
    SameStores(gate, w, after);
    Compose(gate, w, after);
  }

  lemma ReserveKeeps(gate: Gate, w: World, id: nat, reported: bool)
    requires Invariant(gate, w)
    ensures var after := DoReserve(w, id, reported); Invariant(gate, after) && Forward(w, after)
  {
    hide Invariant, Forward;
    if InPhase(w, id, Reserving) && w.workers[id].payment.eventId !in w.table {
      ReserveFreshKeeps(gate, w, id, reported);
    } else {
      ReserveTakenKeeps(gate, w, id, reported);
    }
  }

  /** The id is free: it is reserved for the worker's identity. */
  lemma ReserveFreshKeeps(gate: Gate, w: World, id: nat, reported: bool)
    requires Invariant(gate, w) && InPhase(w, id, Reserving) && w.workers[id].payment.eventId !in w.table
    ensures var after := DoReserve(w, id, reported); Invariant(gate, after) && Forward(w, after)
  {
    hide Invariant, EventOfIdentity, AcceptedKey, ConflictKey, RowRight, ObjectRight, WellFormed, Business;
    WorkerWasRight(gate, w, id);
    ReservedRows(gate, w, id, reported);
    Compose(gate, w, DoReserve(w, id, reported));
  }

  /** The id is taken: the conditional write fails. */
  lemma ReserveTakenKeeps(gate: Gate, w: World, id: nat, reported: bool)
    requires Invariant(gate, w) && !(InPhase(w, id, Reserving) && w.workers[id].payment.eventId !in w.table)
    ensures var after := DoReserve(w, id, reported); Invariant(gate, after) && Forward(w, after)
  {
    hide Invariant, EventOfIdentity, AcceptedKey, ConflictKey, RowRight, ObjectRight, WellFormed, Business;
    WorkerWasRight(gate, w, id);
    SameStores(gate, w, DoReserve(w, id, reported));
    Compose(gate, w, DoReserve(w, id, reported));
  }

  lemma ReservedRows(gate: Gate, w: World, id: nat, reported: bool)
    requires Invariant(gate, w) && InPhase(w, id, Reserving) && w.workers[id].payment.eventId !in w.table
    ensures var after := DoReserve(w, id, reported);
      && (forall eventId :: RowRight(gate, after, eventId))
      && (forall key :: ObjectRight(gate, after, key))
  {
    hide Invariant, EventOfIdentity, AcceptedKey;
    var after := DoReserve(w, id, reported);
    WorkerWasRight(gate, w, id);
    var worker := w.workers[id];
    KeyIsBusiness(worker.payment);
    forall eventId ensures RowRight(gate, after, eventId) {
      RowWasRight(gate, w, eventId);
    }
    forall key ensures ObjectRight(gate, after, key) {
      RowWasRight(gate, w, key);
    }
  }

  lemma RowWasRight(gate: Gate, w: World, x: string)
    requires Invariant(gate, w)
    ensures RowRight(gate, w, x) && ObjectRight(gate, w, x)
  {
    hide WorkerRight, RowRight, ObjectRight;
  }

  lemma ReadBackKeeps(gate: Gate, w: World, id: nat)
    requires Invariant(gate, w)
    ensures var after := DoReadBack(w, id); Invariant(gate, after) && Forward(w, after)
  {
    hide Invariant, EventOfIdentity, WellFormed, AcceptedKey, Business;
    var after := DoReadBack(w, id);
    WorkerWasRight(gate, w, id);
    SameStores(gate, w, after);
    Compose(gate, w, after);
  }

  /** Overwriting an accepted object leaves everything but its delivery time as it was. */
  lemma OverwriteKeepsContent(gate: Gate, w: World, payment: PaymentEvent, identity: Identity)
    requires Invariant(gate, w) && WellFormed(payment)
    requires Business(payment) == EventOfIdentity(gate, identity)
    requires payment.eventId in w.table && w.table[payment.eventId].identity == identity
    ensures AcceptedKey(payment) in w.bucket ==> Business(w.bucket[AcceptedKey(payment)]) == Business(payment)
  {
    hide Invariant, EventOfIdentity, AcceptedKey, Business;
    RowWasRight(gate, w, AcceptedKey(payment));
    if AcceptedKey(payment) in w.bucket {
      KeyIdentifies(w.bucket[AcceptedKey(payment)], payment);
    }
  }

  lemma PutKeeps(gate: Gate, w: World, id: nat, reported: bool)
    requires Invariant(gate, w)
    ensures var after := DoPut(w, id, reported); Invariant(gate, after) && Forward(w, after)
  {
    hide Invariant, EventOfIdentity, AcceptedKey, Business, RowRight, ObjectRight;
    var after := DoPut(w, id, reported);
    WorkerWasRight(gate, w, id);
    if InPhase(w, id, Putting) {
      var worker := w.workers[id];
      OverwriteKeepsContent(gate, w, worker.payment, worker.identity);
      PutRows(gate, w, id, reported);
    } else {
      SameStores(gate, w, after);
    }
    Compose(gate, w, after);
  }

  lemma PutRows(gate: Gate, w: World, id: nat, reported: bool)
    requires Invariant(gate, w) && InPhase(w, id, Putting)
    ensures var after := DoPut(w, id, reported);
      && (forall eventId :: RowRight(gate, after, eventId))
      && (forall key :: ObjectRight(gate, after, key))
  {
    hide Invariant, EventOfIdentity, AcceptedKey, Business;
    var after := DoPut(w, id, reported);
    WorkerWasRight(gate, w, id);
    forall eventId ensures RowRight(gate, after, eventId) {
      RowWasRight(gate, w, eventId);
    }
    forall key ensures ObjectRight(gate, after, key) {
      RowWasRight(gate, w, key);
    }
  }

  lemma MarkKeeps(gate: Gate, w: World, id: nat, reported: bool)
    requires Invariant(gate, w)
    ensures var after := DoMark(w, id, reported); Invariant(gate, after) && Forward(w, after)
  {
    hide Invariant, EventOfIdentity, AcceptedKey, Business, RowRight, ObjectRight, WellFormed;
    var after := DoMark(w, id, reported);
    WorkerWasRight(gate, w, id);
    if InPhase(w, id, Marking) {
      MarkRows(gate, w, id, reported);
    } else {
      SameStores(gate, w, after);
    }
    Compose(gate, w, after);
  }

  lemma MarkRows(gate: Gate, w: World, id: nat, reported: bool)
    requires Invariant(gate, w) && InPhase(w, id, Marking)
    ensures var after := DoMark(w, id, reported);
      && (forall eventId :: RowRight(gate, after, eventId))
      && (forall key :: ObjectRight(gate, after, key))
  {
    hide Invariant, EventOfIdentity, AcceptedKey;
    var after := DoMark(w, id, reported);
    WorkerWasRight(gate, w, id);
    KeyIsBusiness(w.workers[id].payment);
    forall eventId ensures RowRight(gate, after, eventId) {
      RowWasRight(gate, w, eventId);
    }
    forall key ensures ObjectRight(gate, after, key) {
      RowWasRight(gate, w, key);
    }
  }

  lemma PutConflictKeeps(gate: Gate, w: World, id: nat)
    requires Invariant(gate, w)
    ensures var after := DoPutConflict(w, id); Invariant(gate, after) && Forward(w, after)
  {
    hide Invariant, EventOfIdentity, WellFormed, AcceptedKey, Business, ConflictKey;
    var after := DoPutConflict(w, id);
    WorkerWasRight(gate, w, id);
    SameStores(gate, w, after);
    Compose(gate, w, after);
  }

  lemma CrashKeeps(gate: Gate, w: World, id: nat)
    requires Invariant(gate, w)
    ensures var after := DoCrash(w, id); Invariant(gate, after) && Forward(w, after)
  {
    hide Invariant, EventOfIdentity, WellFormed, AcceptedKey, Business;
    var after := DoCrash(w, id);
    WorkerWasRight(gate, w, id);
    SameStores(gate, w, after);
    Compose(gate, w, after);
  }

  lemma StepKeeps(gate: Gate, w: World, a: Action)
    requires Invariant(gate, w)
    ensures Invariant(gate, Step(gate, w, a)) && Forward(w, Step(gate, w, a))
  {
    hide Invariant, Forward, DoReceive, DoReserve, DoReadBack, DoPut, DoMark, DoPutConflict, DoCrash;
    match a
    case Receive(id, raw) => ReceiveKeeps(gate, w, id, raw);
    case Reserve(id, reported) => ReserveKeeps(gate, w, id, reported);
    case ReadBack(id) => ReadBackKeeps(gate, w, id);
    case PutObject(id, reported) => PutKeeps(gate, w, id, reported);
    case Mark(id, reported) => MarkKeeps(gate, w, id, reported);
    case PutConflict(id) => PutConflictKeeps(gate, w, id);
    case Crash(id) => CrashKeeps(gate, w, id);
  }

  lemma {:induction false} AlwaysInvariant(gate: Gate, actions: seq<Action>)
    ensures Invariant(gate, After(gate, actions))
  {
    hide Invariant, Step;
    if actions == [] {
      StartsRight(gate);
    } else {
      AlwaysInvariant(gate, actions[..|actions| - 1]);
      StepKeeps(gate, After(gate, actions[..|actions| - 1]), actions[|actions| - 1]);
    }
  }

  lemma StartsRight(gate: Gate)
    ensures Invariant(gate, EMPTY_WORLD)
  {
  }

  // ---- main results ----

  /** Over any further actions identities never change, published stays published, objects keep their content. */
  lemma {:induction false} IdentityIsPermanent(gate: Gate, actions: seq<Action>, more: seq<Action>)
    ensures Forward(After(gate, actions), After(gate, actions + more))
  {
    hide Invariant, Step, Business;
    if more == [] {
      assert actions + more == actions;
    } else {
      var last := |more| - 1;
      IdentityIsPermanent(gate, actions, more[..last]);
      assert (actions + more)[..|actions + more| - 1] == actions + more[..last];
      AlwaysInvariant(gate, actions + more[..last]);
      StepKeeps(gate, After(gate, actions + more[..last]), more[last]);
      assert After(gate, actions + more) == Step(gate, After(gate, actions + more[..last]), more[last]);
    }
  }

  /** A published row's object exists, and its content is the reserved identity's event. */
  lemma PublishedHasItsObject(gate: Gate, actions: seq<Action>, eventId: string)
    ensures var w := After(gate, actions);
      eventId in w.table && w.table[eventId].status == Published ==>
        var key := w.table[eventId].acceptedKey;
        && key in w.bucket && w.bucket[key].eventId == eventId
        && Business(w.bucket[key]) == EventOfIdentity(gate, w.table[eventId].identity)
  {
    hide After, Invariant, EventOfIdentity, WellFormed;
    var w := After(gate, actions);
    AlwaysInvariant(gate, actions);
    RowWasRight(gate, w, eventId);
    if eventId in w.table && w.table[eventId].status == Published {
      var key := w.table[eventId].acceptedKey;
      RowWasRight(gate, w, key);
      WellFormedRow(gate, w, eventId);
      KeyIdentifies(w.bucket[key], EventOfIdentity(gate, w.table[eventId].identity));
    }
  }

  lemma WellFormedRow(gate: Gate, w: World, eventId: string)
    requires Invariant(gate, w) && eventId in w.table
    ensures IsIdentifier(EventOfIdentity(gate, w.table[eventId].identity).eventId)
    ensures forall key :: key in w.bucket ==> IsIdentifier(w.bucket[key].eventId)
  {
    hide EventOfIdentity, IsIdentifier, AcceptedKey, WorkerRight, Business;
    assert RowRight(gate, w, eventId);
    forall key | key in w.bucket ensures IsIdentifier(w.bucket[key].eventId) {
      assert ObjectRight(gate, w, key);
    }
  }

  /** At most one accepted object ever exists per event id, and it is the reserved one. */
  lemma OneObjectPerEvent(gate: Gate, actions: seq<Action>, first: string, second: string)
    requires first in After(gate, actions).bucket && second in After(gate, actions).bucket
    ensures var w := After(gate, actions);
      && (w.bucket[first].eventId == w.bucket[second].eventId ==> first == second)
      && w.bucket[first].eventId in w.table && w.table[w.bucket[first].eventId].acceptedKey == first
  {
    hide After, Invariant, EventOfIdentity, WellFormed, AcceptedKey;
    var w := After(gate, actions);
    AlwaysInvariant(gate, actions);
    RowWasRight(gate, w, first);
    RowWasRight(gate, w, second);
    RowWasRight(gate, w, w.bucket[first].eventId);
    KeyIsBusiness(w.bucket[first]);
    KeyIsBusiness(w.bucket[second]);
  }

  /** The final conditional update never fails, and every verdict is true of the identity table. */
  lemma VerdictsAreTruthful(gate: Gate, actions: seq<Action>, id: nat)
    requires id in After(gate, actions).workers && After(gate, actions).workers[id].phase.Done?
    ensures var w, worker := After(gate, actions), After(gate, actions).workers[id];
      && worker.phase.result != ConditionFailed
      && (worker.phase.result in {PublishedNow, AlreadyPublished} ==>
            Owns(w, worker) && w.table[worker.payment.eventId].status == Published)
      && (worker.phase.result == ConflictQuarantined ==> LostTo(w, worker) && ConflictKey(worker.payment) in w.conflicts)
  {
    hide After, Invariant, EventOfIdentity, WellFormed, AcceptedKey, Business, ConflictKey;
    AlwaysInvariant(gate, actions);
    WorkerWasRight(gate, After(gate, actions), id);
  }

  // ---- a retry completes ----

  /** A worker's remaining actions with nothing in between. */
  function FromReserving(w: World, id: nat): World {
    DoPutConflict(DoMark(DoPut(DoReadBack(DoReserve(w, id, true), id), id, true), id, true), id)
  }

  function Uninterrupted(gate: Gate, w: World, id: nat, raw: Raw): World {
    FromReserving(DoReceive(gate, w, id, raw), id)
  }

  ghost predicate Completed(w: World, after: World, id: nat, eventId: string, identity: Identity)
    requires id in after.workers
  {
    && eventId in after.table
    && (if eventId in w.table && w.table[eventId].identity != identity
        then after.table == w.table && after.bucket == w.bucket
             && after.workers[id].phase == Done(ConflictQuarantined)
        else after.table[eventId].status == Published
             && after.table[eventId].identity == identity
             && after.table[eventId].acceptedKey in after.bucket
             && after.conflicts == w.conflicts
             && (if eventId in w.table && w.table[eventId].status == Published
                 then after.table == w.table && after.bucket == w.bucket
                      && after.workers[id].phase == Done(AlreadyPublished)
                 else after.workers[id].phase == Done(PublishedNow)))
  }

  lemma WorkerCompletes(w: World, id: nat, worker: Worker)
    requires id in w.workers && w.workers[id] == worker && worker.phase == Reserving
    requires worker.payment.eventId in w.table ==>
               var row := w.table[worker.payment.eventId];
               && (row.status == Published ==> row.acceptedKey in w.bucket)
               && (row.identity == worker.identity ==> row.acceptedKey == AcceptedKey(worker.payment))
    ensures id in FromReserving(w, id).workers
    ensures Completed(w, FromReserving(w, id), id, worker.payment.eventId, worker.identity)
  {
    hide AcceptedKey, ConflictKey;
    var first := DoReserve(w, id, true);
    var second := DoReadBack(first, id);
    var third := DoPut(second, id, true);
    var fourth := DoMark(third, id, true);
    if worker.payment.eventId in w.table && w.table[worker.payment.eventId].identity != worker.identity {
      assert second.workers[id].phase == Quarantining;
      assert fourth == second;
    } else if worker.payment.eventId in w.table && w.table[worker.payment.eventId].status == Published {
      assert second.workers[id].phase == Done(AlreadyPublished);
      assert fourth == second;
    } else {
      assert second.workers[id].phase == Putting;
      assert third.workers[id].phase == Marking;
    }
  }

  /**
   Redelivery after any crash completes the publication: from every reachable world, an undisturbed worker
   for a valid payload ends published if the identity is its own or unreserved, and in conflict otherwise.
   */
  lemma RetryCompletes(gate: Gate, actions: seq<Action>, id: nat, raw: Raw)
    requires id !in After(gate, actions).workers && ValidateEvent(gate, raw).Ok?
    ensures var w := After(gate, actions);
      var after := Uninterrupted(gate, w, id, raw);
      && id in after.workers
      && Completed(w, after, id, ValidateEvent(gate, raw).value.eventId, IdentityFingerprint(gate, raw))
  {
    hide After, Invariant, ValidateEvent, IdentityFingerprint, EventOfIdentity, WellFormed, AcceptedKey, Business;
    hide FromReserving, ConflictKey;
    var w := After(gate, actions);
    AlwaysInvariant(gate, actions);
    IdentityDeterminesEvent(gate, raw);
    var payment := ValidateEvent(gate, raw).value;
    KeyIsBusiness(payment);
    RowWasRight(gate, w, payment.eventId);
    var received := DoReceive(gate, w, id, raw);
    WorkerCompletes(received, id, received.workers[id]);
  }

  // ---- what ingestion reads ----

  /** The objects under one date's prefix, as the ingestion step lists them. */
  function DatePrefix(w: World, date: string): set<PaymentEvent> {
    set key | key in w.bucket && "accepted/event_date=" + date + "/" <= key :: w.bucket[key]
  }

  lemma NotInFile(head: string, file: string, i: nat)
    requires '/' !in file && |head| < i < |head + ['/'] + file|
    ensures (head + ['/'] + file)[i] != '/'
  {
    assert (head + ['/'] + file)[i] == file[i - |head| - 1];
  }

  /** A key lies under a ten-character date exactly if the event's text carries that date. */
  lemma PrefixIsDate(e: PaymentEvent, date: string)
    requires IsIdentifier(e.eventId) && |date| == 10
    ensures "accepted/event_date=" + date + "/" <= AcceptedKey(e) <==> Dated(e.eventTime, date)
  {
    var root := "accepted/event_date=";
    var prefix := root + date + "/";
    var day, file := BusinessDate(e.eventTime), e.eventId + ".json";
    var key := AcceptedKey(e);
    assert key == (root + day) + ['/'] + file;
    NoSlash(e.eventId);
    if prefix <= key {
      assert key[|root| + 10] == prefix[|root| + 10] == '/';
      assert |day| == 10 by {
        if |day| < 10 { NotInFile(root + day, file, |root| + 10); }
      }
      assert day == key[|root|..|root| + 10] && date == prefix[|root|..|root| + 10];
      assert prefix[..|root| + 10] == key[..|root| + 10];
      assert date == day;
    }
    if Dated(e.eventTime, date) {
      assert date == e.eventTime[..10] == day;
      assert key == prefix + file;
    }
  }

  ghost function Delivery(gate: Gate, actions: seq<Action>, date: string): Accepted {
    DeliveryIsKeyed(gate, actions, date);
    map e | e in DatePrefix(After(gate, actions), date) :: e.eventId := e
  }

  lemma DeliveryIsKeyed(gate: Gate, actions: seq<Action>, date: string)
    ensures UniqueIds(DatePrefix(After(gate, actions), date))
  {
    var w := After(gate, actions);
    forall a, b | a in DatePrefix(w, date) && b in DatePrefix(w, date) && a.eventId == b.eventId ensures a == b {
      var i :| i in w.bucket && w.bucket[i] == a;
      var j :| j in w.bucket && w.bucket[j] == b;
      OneObjectPerEvent(gate, actions, i, j);
    }
  }

  /**
   Every published date prefix is a delivery that the ingestion step admits.  It holds exactly the published events
   whose text carries that date; which date the jobs convert that text to is another matter.
   */
  lemma PublicationFeedsIngestion(gate: Gate, actions: seq<Action>, date: string)
    requires |date| == 10
    ensures var w, delivery := After(gate, actions), Delivery(gate, actions, date);
      && Pipeline.Deliverable(delivery)
      && forall id, e :: id in delivery && delivery[id] == e
           <==> e.eventId == id && Dated(e.eventTime, date) && exists key :: key in w.bucket && w.bucket[key] == e
  {
    hide After, Invariant, AcceptedKey, Dated, WellFormed, Business, EventOfIdentity;
    var w := After(gate, actions);
    AlwaysInvariant(gate, actions);
    var delivery := Delivery(gate, actions, date);
    forall key | key in w.bucket
      ensures "accepted/event_date=" + date + "/" <= key <==> Dated(w.bucket[key].eventTime, date)
      ensures WellFormed(w.bucket[key])
    {
      RowWasRight(gate, w, key);
      WellFormedId(w.bucket[key]);
      PrefixIsDate(w.bucket[key], date);
    }
    forall e ensures e in DatePrefix(w, date)
                <==> Dated(e.eventTime, date) && exists key :: key in w.bucket && w.bucket[key] == e
    {
      if e in DatePrefix(w, date) {
        var key :| key in w.bucket && "accepted/event_date=" + date + "/" <= key && w.bucket[key] == e;
      }
    }
    DeliveryIsKeyed(gate, actions, date);
    forall id, e ensures id in delivery && delivery[id] == e <==> e.eventId == id && e in DatePrefix(w, date) {}
    forall id | id in delivery ensures delivery[id].eventId == id && WellFormed(delivery[id]) {
      var e := delivery[id];
      var key :| key in w.bucket && w.bucket[key] == e;
    }
  }

  lemma WellFormedId(e: PaymentEvent)
    requires WellFormed(e)
    ensures IsIdentifier(e.eventId)
  {
  }

  // ---- quarantined conflicts ----

  /** The object is the event of a worker that lost its id to another identity, under that id's key. */
  ghost predicate ConflictRight(w: World, key: string) {
    key in w.conflicts ==>
      && key == "identity-conflict/" + w.conflicts[key].eventId + ".json"
      && exists id :: id in w.workers && w.workers[id].payment == w.conflicts[key] && LostTo(w, w.workers[id])
  }

  lemma ConflictStaysRight(w: World, after: World, key: string)
    requires ConflictRight(w, key) && Forward(w, after)
    requires key in after.conflicts ==> key in w.conflicts && after.conflicts[key] == w.conflicts[key]
    requires forall id :: id in w.workers ==>
               && id in after.workers && after.workers[id].payment == w.workers[id].payment
               && after.workers[id].identity == w.workers[id].identity
    ensures ConflictRight(after, key)
  {
    hide Business;
    if key in after.conflicts {
      var id :| id in w.workers && w.workers[id].payment == w.conflicts[key] && LostTo(w, w.workers[id]);
      assert LostTo(after, after.workers[id]);
    }
  }

  lemma WorkerStays(gate: Gate, w: World, a: Action, id: nat)
    requires id in w.workers
    ensures id in Step(gate, w, a).workers
    ensures Step(gate, w, a).workers[id].payment == w.workers[id].payment
    ensures Step(gate, w, a).workers[id].identity == w.workers[id].identity
  {
    hide ValidateEvent, IdentityFingerprint, AcceptedKey, ConflictKey, MayMark;
  }

  lemma StepConflict(gate: Gate, w: World, a: Action, key: string)
    requires Invariant(gate, w) && ConflictRight(w, key)
    ensures ConflictRight(Step(gate, w, a), key)
  {
    hide Invariant, Forward, ConflictRight, Step;
    forall id | id in w.workers
      ensures id in Step(gate, w, a).workers
      ensures Step(gate, w, a).workers[id].payment == w.workers[id].payment
      ensures Step(gate, w, a).workers[id].identity == w.workers[id].identity
    {
      WorkerStays(gate, w, a, id);
    }
    StepKeeps(gate, w, a);
    if a.PutConflict? && InPhase(w, a.worker, Quarantining) && key == ConflictKey(w.workers[a.worker].payment) {
      WorkerWasRight(gate, w, a.worker);
      NewConflict(gate, w, a.worker);
    } else {
      OldConflict(gate, w, a, key);
      ConflictStaysRight(w, Step(gate, w, a), key);
    }
  }

  lemma OldConflict(gate: Gate, w: World, a: Action, key: string)
    requires !(a.PutConflict? && InPhase(w, a.worker, Quarantining) && key == ConflictKey(w.workers[a.worker].payment))
    ensures key in Step(gate, w, a).conflicts ==>
              key in w.conflicts && Step(gate, w, a).conflicts[key] == w.conflicts[key]
  {
    hide ValidateEvent, IdentityFingerprint, AcceptedKey, ConflictKey, MayMark;
  }

  lemma NewConflict(gate: Gate, w: World, id: nat)
    requires InPhase(w, id, Quarantining) && WorkerRight(gate, w, w.workers[id])
    ensures ConflictRight(Step(gate, w, PutConflict(id)), ConflictKey(w.workers[id].payment))
  {
    hide WellFormed, Business, EventOfIdentity;
    var after := Step(gate, w, PutConflict(id));
    assert id in after.workers && LostTo(after, after.workers[id]);
  }

  /** Every quarantined conflict is, under its id's key, the event of a worker that lost the id to another identity. */
  lemma {:induction false} ConflictsAreLosers(gate: Gate, actions: seq<Action>, key: string)
    ensures ConflictRight(After(gate, actions), key)
  {
    hide Step, Invariant;
    if actions != [] {
      ConflictsAreLosers(gate, actions[..|actions| - 1], key);
      AlwaysInvariant(gate, actions[..|actions| - 1]);
      StepConflict(gate, After(gate, actions[..|actions| - 1]), actions[|actions| - 1], key);
    }
  }
}
