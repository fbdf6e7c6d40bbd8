/**
 The identity gate's batch handler, record by record: an envelope is opened, its business payload is checked for
 card data, the whole raw object is kept as evidence, the payload is validated and published.  Failures are
 collected, and every record that is not reported as failed has been settled.  What the evidence and contract
 quarantine buckets hold after a batch, and which card data may be among it, is characterised exactly.
 */
module PublicationHandler {
  import opened Wrappers
  import opened Contracts
  import opened ContractLaws
  import opened Publication
  import opened PublicationLaws

  /** Which call, if any, raises before taking effect. */
  datatype Fault = NoFault | ArrivalFails | QuarantineFails | ReserveFails | ReadFails | PutFails | MarkFails

  datatype Payload = Undecodable | NotAnObject | Decoded(raw: Raw)

  /** `arrivalDate` is the ten-character date on which the record is handled. */
  datatype Record = Record(eventId: Option<string>, arrivalDate: string, payload: Payload, fault: Fault)

  datatype ContractObject = ContractObject(reason: Reason, event: Json)

  const UNKNOWN := "unknown"

  function RecordId(r: Record): string {
    r.eventId.GetOr(UNKNOWN)
  }

  function EvidenceKey(r: Record): string {
    "arrivals/date=" + r.arrivalDate + "/" + RecordId(r) + ".json"
  }

  function ContractKey(r: Record): string {
    "contract/" + RecordId(r) + ".json"
  }

  // ---- what becomes of a record ----

  /** The business payload that the checks see, if the record yields one. */
  function BusinessPayload(r: Record): Option<Raw> {
    if r.payload.Decoded? && ExtractBusinessPayload(r.payload.raw).Extracted?
    then Some(ExtractBusinessPayload(r.payload.raw).payload) else None
  }

  /** The payload carries no card data, so that the raw object is written. */
  predicate ReachesWrite(gate: Gate, r: Record) {
    BusinessPayload(r).Some? && Prohibited(gate, Object(BusinessPayload(r).value)) == {}
  }

  /** The contract error that turns the record away, if one is raised. */
  function ContractVerdict(gate: Gate, r: Record): Option<Reason> {
    match r.payload
    case Undecodable => None
    case NotAnObject => Some(NonObjectEvent)
    case Decoded(raw) =>
      match ExtractBusinessPayload(raw)
      case EnvelopeRefused(reason) => Some(reason)
      case TypeFails => None
      case Extracted(payload) =>
        if Prohibited(gate, Object(payload)) != {} then Some(ProhibitedFields(Prohibited(gate, Object(payload))))
        else if r.fault.ArrivalFails? then None
        else
          match ValidateEvent(gate, payload)
          case Err(reason) => Some(reason)
          case Ok(_) => None
  }

  /** An error other than a contract error is raised before publication starts. */
  predicate Raises(gate: Gate, r: Record) {
    || r.payload.Undecodable?
    || (r.payload.Decoded? && ExtractBusinessPayload(r.payload.raw).TypeFails?)
    || (ReachesWrite(gate, r) && r.fault.ArrivalFails?)
  }

  predicate ReachesPublication(gate: Gate, r: Record) {
    && ReachesWrite(gate, r) && !r.fault.ArrivalFails?
    && ValidateEvent(gate, BusinessPayload(r).value).Ok?
  }

  /** Every record is turned away by the contract, raises, or reaches publication: exactly one of the three. */
  lemma ThreeWays(gate: Gate, r: Record)
    ensures !(ContractVerdict(gate, r).Some? && Raises(gate, r))
    ensures ReachesPublication(gate, r) <==> ContractVerdict(gate, r).None? && !Raises(gate, r)
  {
    hide ValidateEvent, Prohibited, ExtractBusinessPayload;
  }

  /** A record is published, up to raising calls, exactly if its object opens as a payload that meets every demand. */
  lemma PublishedExactly(gate: Gate, r: Record)
    ensures ReachesPublication(gate, r)
       <==> && r.payload.Decoded? && !r.fault.ArrivalFails?
            && exists payload :: OpensAs(r.payload.raw, payload) && forall d: Demand :: Meets(gate, payload, d)
    ensures forall payload :: r.payload.Decoded? ==> (BusinessPayload(r) == Some(payload) <==> OpensAs(r.payload.raw, payload))
  {
    hide ValidateEvent, ExtractBusinessPayload, OpensAs, Meets, Complaint, FirstUnmet;
    if r.payload.Decoded? {
      ExtractionIsExact(r.payload.raw);
      if BusinessPayload(r).Some? {
        var payload := BusinessPayload(r).value;
        assert OpensAs(r.payload.raw, payload);
        RefusalIsExact(gate, payload, UnknownSource);
        CardDataIsRefused(gate, payload);
      }
    }
  }

  /** The payload's first unmet demand has this complaint; card data is reported even if the evidence write would raise. */
  ghost predicate RefusedPayload(gate: Gate, r: Record, payload: Raw, reason: Reason) {
    exists d: Demand :: FirstUnmet(gate, payload, d) && reason == Complaint(gate, payload, d)
                        && (d == NoCardData || !r.fault.ArrivalFails?)
  }

  /** For which reason a record is turned away, in terms of its own object. */
  lemma VerdictIsExact(gate: Gate, r: Record, reason: Reason)
    ensures ContractVerdict(gate, r) == Some(reason)
       <==> || (r.payload.NotAnObject? && reason == NonObjectEvent)
            || (r.payload.Decoded? && RefusedEnvelope(r.payload.raw, reason))
            || (r.payload.Decoded?
                && exists payload :: OpensAs(r.payload.raw, payload) && RefusedPayload(gate, r, payload, reason))
  {
    hide ValidateEvent, ExtractBusinessPayload, OpensAs, RefusedEnvelope, RefusedPayload;
    if r.payload.Decoded? {
      var raw := r.payload.raw;
      ExtractionIsExact(raw);
      if ExtractBusinessPayload(raw).Extracted? {
        var payload := ExtractBusinessPayload(raw).payload;
        assert OpensAs(raw, payload);
        PayloadVerdict(gate, r, payload, reason);
      }
    }
  }

  ghost predicate OpensClean(gate: Gate, raw: Raw) {
    exists payload :: OpensAs(raw, payload) && Prohibited(gate, Object(payload)) == {}
  }

  /** When the whole object is kept as evidence, and when an error other than a contract error is raised. */
  lemma EvidenceIsExact(gate: Gate, r: Record)
    ensures EvidenceWrite(gate, r)
         == if r.payload.Decoded? && !r.fault.ArrivalFails? && OpensClean(gate, r.payload.raw)
            then Put("arrivals/date=" + r.arrivalDate + "/" + RecordId(r) + ".json", r.payload.raw) else NoWrite
    ensures Raises(gate, r)
       <==> || r.payload.Undecodable?
            || (r.payload.Decoded? && EnvelopeShape(r.payload.raw) && OutboxTable(r.payload.raw)
                && CompoundOperation(r.payload.raw))
            || (r.payload.Decoded? && r.fault.ArrivalFails? && OpensClean(gate, r.payload.raw))
  {
    hide Prohibited, ExtractBusinessPayload, OpensAs;
    if r.payload.Decoded? {
      ExtractionIsExact(r.payload.raw);
      if BusinessPayload(r).Some? { assert OpensAs(r.payload.raw, BusinessPayload(r).value); }
    }
  }

  lemma PayloadVerdict(gate: Gate, r: Record, payload: Raw, reason: Reason)
    ensures RefusedPayload(gate, r, payload, reason)
       <==> if Prohibited(gate, Object(payload)) != {} then reason == ProhibitedFields(Prohibited(gate, Object(payload)))
            else !r.fault.ArrivalFails? && ValidateEvent(gate, payload) == Err(reason)
  {
    hide ValidateEvent, Prohibited, Complaint;
    RefusalIsExact(gate, payload, reason);
    assert Meets(gate, payload, NoCardData) <==> Prohibited(gate, Object(payload)) == {};
    CardComplaint(gate, payload);
    if !Meets(gate, payload, NoCardData) {
      assert FirstUnmet(gate, payload, NoCardData);
      forall d: Demand | FirstUnmet(gate, payload, d) ensures d == NoCardData {}
    }
  }

  lemma CardComplaint(gate: Gate, payload: Raw)
    ensures Complaint(gate, payload, NoCardData) == ProhibitedFields(Prohibited(gate, Object(payload)))
  {
  }

  /** The contract quarantine gets the verdict's reason and the whole object redacted, under the record's id. */
  lemma QuarantineIsExact(gate: Gate, r: Record)
    ensures ContractVerdict(gate, r).None? || r.fault.QuarantineFails? ==> QuarantineWrite(gate, r) == NoWrite
    ensures forall reason :: ContractVerdict(gate, r) == Some(reason) && !r.fault.QuarantineFails? ==>
              QuarantineWrite(gate, r)
              == Put("contract/" + RecordId(r) + ".json",
                     ContractObject(reason, if r.payload.Decoded? then Redact(gate, Object(r.payload.raw)) else Object(map[])))
  {
    hide ContractVerdict;
  }

  /** An envelope for any other operation is quarantined with that reason, leaves no evidence and is never published. */
  lemma OtherOperationsAreQuarantined(gate: Gate, r: Record)
    requires r.payload.Decoded? && RefusedEnvelope(r.payload.raw, NonInsertOutboxMutation)
    ensures !ReachesPublication(gate, r) && EvidenceWrite(gate, r) == NoWrite
    ensures QuarantineWrite(gate, r)
         == if r.fault.QuarantineFails? then NoWrite
            else Put("contract/" + RecordId(r) + ".json",
                     ContractObject(NonInsertOutboxMutation, Redact(gate, Object(r.payload.raw))))
  {
    hide ValidateEvent, Prohibited, ExtractBusinessPayload, Redact;
    ExtractionIsExact(r.payload.raw);
  }

  // ---- what is written for a record ----

  datatype Write<V> = NoWrite | Put(key: string, value: V)

  function Written<V>(m: map<string, V>, write: Write<V>): map<string, V> {
    match write
    case NoWrite => m
    case Put(key, value) => m[key := value]
  }

  function Applied<V>(m: map<string, V>, writes: seq<Write<V>>): map<string, V> {
    if writes == [] then m else Written(Applied(m, writes[..|writes| - 1]), writes[|writes| - 1])
  }

  /** The whole raw object, envelope included, is kept under the record's date and id. */
  function EvidenceWrite(gate: Gate, r: Record): Write<Raw> {
    if ReachesWrite(gate, r) && !r.fault.ArrivalFails? then Put(EvidenceKey(r), r.payload.raw) else NoWrite
  }

  /** The reason and the redacted raw object. */
  function QuarantineWrite(gate: Gate, r: Record): Write<ContractObject> {
    match ContractVerdict(gate, r)
    case None => NoWrite
    case Some(reason) =>
      if r.fault.QuarantineFails? then NoWrite
      else
        var raw := if r.payload.Decoded? then r.payload.raw else map[];
        Put(ContractKey(r), ContractObject(reason, Redact(gate, Object(raw))))
  }

  function EvidenceWrites(gate: Gate, records: seq<Record>): (writes: seq<Write<Raw>>)
    ensures |writes| == |records|
    ensures forall i :: 0 <= i < |records| ==> writes[i] == EvidenceWrite(gate, records[i])
  {
    seq(|records|, i requires 0 <= i < |records| => EvidenceWrite(gate, records[i]))
  }

  function QuarantineWrites(gate: Gate, records: seq<Record>): (writes: seq<Write<ContractObject>>)
    ensures |writes| == |records|
    ensures forall i :: 0 <= i < |records| ==> writes[i] == QuarantineWrite(gate, records[i])
  {
    seq(|records|, i requires 0 <= i < |records| => QuarantineWrite(gate, records[i]))
  }

  lemma NothingWritten(gate: Gate, arrivals: map<string, Raw>, quarantine: map<string, ContractObject>, records: seq<Record>)
    ensures Applied(arrivals, EvidenceWrites(gate, records[..0])) == arrivals
    ensures Applied(quarantine, QuarantineWrites(gate, records[..0])) == quarantine
  {
  }

  lemma OneMoreWritten(gate: Gate, arrivals: map<string, Raw>, quarantine: map<string, ContractObject>, records: seq<Record>, k: nat)
    requires k < |records|
    ensures Applied(arrivals, EvidenceWrites(gate, records[..k + 1]))
         == Written(Applied(arrivals, EvidenceWrites(gate, records[..k])), EvidenceWrite(gate, records[k]))
    ensures Applied(quarantine, QuarantineWrites(gate, records[..k + 1]))
         == Written(Applied(quarantine, QuarantineWrites(gate, records[..k])), QuarantineWrite(gate, records[k]))
  {
    hide EvidenceWrite, QuarantineWrite, Written;
    assert EvidenceWrites(gate, records[..k + 1])[..k] == EvidenceWrites(gate, records[..k]);
    assert QuarantineWrites(gate, records[..k + 1])[..k] == QuarantineWrites(gate, records[..k]);
  }

  // ---- what survives of a batch ----

  /** Nothing after write j goes to its key. */
  ghost predicate LastPut<V>(writes: seq<Write<V>>, j: int) {
    && 0 <= j < |writes| && writes[j].Put?
    && forall k :: j < k < |writes| && writes[k].Put? ==> writes[k].key != writes[j].key
  }

  /** A key holds what was last put there, or what it held before. */
  lemma {:induction false} AppliedHolds<V>(m: map<string, V>, writes: seq<Write<V>>, key: string)
    ensures forall j :: LastPut(writes, j) && writes[j].key == key ==>
              key in Applied(m, writes) && Applied(m, writes)[key] == writes[j].value
    ensures (exists j :: LastPut(writes, j) && writes[j].key == key)
            || ((key in Applied(m, writes) <==> key in m) && (key in m ==> Applied(m, writes)[key] == m[key]))
  {
    if writes != [] {
      var last := |writes| - 1;
      var front := writes[..last];
      AppliedHolds(m, front, key);
      if writes[last].Put? && writes[last].key == key {
        assert LastPut(writes, last);
      } else {
        forall j | LastPut(front, j) && front[j].key == key ensures LastPut(writes, j) {}
        forall j | LastPut(writes, j) && writes[j].key == key ensures LastPut(front, j) {}
      }
    }
  }

  lemma {:induction false} SomeLastPut<V>(writes: seq<Write<V>>, i: int) returns (j: int)
    requires 0 <= i < |writes| && writes[i].Put?
    ensures i <= j && LastPut(writes, j) && writes[j].key == writes[i].key
  {
    j := i;
    for k := i to |writes|
      invariant i <= j <= k && j < |writes| && writes[j].Put? && writes[j].key == writes[i].key
      invariant forall l :: j < l < k && writes[l].Put? ==> writes[l].key != writes[i].key
    {
      if writes[k].Put? && writes[k].key == writes[i].key { j := k; }
    }
  }

  /**
   A record's own raw object is what its key holds after the batch exactly if the last written record under that
   key has the same content.
   */
  lemma EvidenceSurvivesExactly(gate: Gate, before: map<string, Raw>, records: seq<Record>, i: nat)
    requires i < |records| && EvidenceWrite(gate, records[i]).Put?
    ensures var writes := EvidenceWrites(gate, records);
      var after := Applied(before, writes);
      && EvidenceKey(records[i]) in after
      && (after[EvidenceKey(records[i])] == records[i].payload.raw
          <==> exists j :: i <= j && LastPut(writes, j) && writes[j].key == EvidenceKey(records[i])
                           && writes[j].value == records[i].payload.raw)
  {
    hide ReachesWrite, EvidenceKey;
    var writes := EvidenceWrites(gate, records);
    var j := SomeLastPut(writes, i);
    AppliedHolds(before, writes, EvidenceKey(records[i]));
  }

  /** The record's own object survives if no later written record has its date and id. */
  lemma EvidenceSurvives(gate: Gate, before: map<string, Raw>, records: seq<Record>, i: nat)
    requires i < |records| && EvidenceWrite(gate, records[i]).Put?
    requires forall k :: 0 <= k < |records| ==> |records[k].arrivalDate| == 10
    requires forall k :: i < k < |records| && EvidenceWrite(gate, records[k]).Put? ==>
               records[k].arrivalDate != records[i].arrivalDate || RecordId(records[k]) != RecordId(records[i])
    ensures var after := Applied(before, EvidenceWrites(gate, records));
      EvidenceKey(records[i]) in after && after[EvidenceKey(records[i])] == records[i].payload.raw
  {
    hide ReachesWrite, EvidenceKey;
    var writes := EvidenceWrites(gate, records);
    forall k | i < k < |writes| && writes[k].Put? ensures writes[k].key != writes[i].key {
      EvidenceKeysIdentify(records[k], records[i]);
    }
    assert LastPut(writes, i);
    AppliedHolds(before, writes, EvidenceKey(records[i]));
  }

  lemma EvidenceKeysIdentify(a: Record, b: Record)
    requires |a.arrivalDate| == 10 && |b.arrivalDate| == 10
    ensures EvidenceKey(a) == EvidenceKey(b) <==> a.arrivalDate == b.arrivalDate && RecordId(a) == RecordId(b)
  {
    if EvidenceKey(a) == EvidenceKey(b) {
      var key := EvidenceKey(a);
      var prefix := |"arrivals/date="|;
      assert a.arrivalDate == key[prefix..prefix + 10] && b.arrivalDate == key[prefix..prefix + 10];
      assert RecordId(a) == key[prefix + 11..|key| - 5] && RecordId(b) == key[prefix + 11..|key| - 5];
    }
  }

  /** Two records without an event id, handled on one day: the second one's object replaces the first one's. */
  lemma UnknownRecordsOverwrite(gate: Gate, before: map<string, Raw>, first: Record, second: Record)
    requires first.eventId.None? && second.eventId.None? && first.arrivalDate == second.arrivalDate
    requires EvidenceWrite(gate, first).Put? && EvidenceWrite(gate, second).Put?
    requires first.payload.raw != second.payload.raw
    ensures var after := Applied(before, EvidenceWrites(gate, [first, second]));
      && after == before[EvidenceKey(first) := second.payload.raw]
      && after[EvidenceKey(first)] != first.payload.raw
      && EvidenceKey(first) == "arrivals/date=" + first.arrivalDate + "/unknown.json"
  {
    hide ReachesWrite;
    var writes := EvidenceWrites(gate, [first, second]);
    SameKey(first, second);
    EvidenceIsOwn(gate, first);
    assert writes == [EvidenceWrite(gate, first), EvidenceWrite(gate, second)];
    assert writes[..1] == [EvidenceWrite(gate, first)] && writes[..1][..0] == [];
    assert Applied(before, writes[..1]) == before[EvidenceKey(first) := first.payload.raw];
  }

  lemma SameKey(a: Record, b: Record)
    requires a.eventId == b.eventId && a.arrivalDate == b.arrivalDate
    ensures EvidenceKey(a) == EvidenceKey(b)
  {
  }

  // ---- card data among the evidence ----

  /** An opened envelope whose data is clean and which carries card data elsewhere. */
  ghost predicate LeaksCardData(gate: Gate, raw: Raw) {
    && !IsDirect(raw) && ExtractBusinessPayload(raw).Extracted?
    && Prohibited(gate, raw["data"]) == {}
    && Prohibited(gate, Object(OutsideData(raw))) != {}
  }

  lemma OpenedEnvelope(raw: Raw)
    requires !IsDirect(raw) && ExtractBusinessPayload(raw).Extracted?
    ensures "data" in raw && raw["data"] == Object(ExtractBusinessPayload(raw).payload)
  {
  }

  /**
   The object kept for a record carries card data exactly if it is an opened envelope with clean data and card
   data outside of it; a direct event that is kept never does.
   */
  lemma KeptCardDataExactly(gate: Gate, r: Record)
    ensures EvidenceWrite(gate, r).Put? && Prohibited(gate, Object(EvidenceWrite(gate, r).value)) != {}
       <==> r.payload.Decoded? && !r.fault.ArrivalFails? && LeaksCardData(gate, r.payload.raw)
  {
    hide Prohibited, EvidenceKey;
    if r.payload.Decoded? && ExtractBusinessPayload(r.payload.raw).Extracted? {
      var raw := r.payload.raw;
      if IsDirect(raw) {
        assert ExtractBusinessPayload(raw).payload == raw;
      } else {
        OpenedEnvelope(raw);
        ProhibitedSplits(gate, raw);
      }
    }
  }

  ghost predicate EvidenceIsClean(gate: Gate, arrivals: map<string, Raw>) {
    forall key :: key in arrivals ==> Prohibited(gate, Object(arrivals[key])) == {}
  }

  /** After a batch on clean evidence, the evidence is clean exactly if no surviving object leaks. */
  lemma BatchEvidenceCleanExactly(gate: Gate, before: map<string, Raw>, records: seq<Record>)
    requires EvidenceIsClean(gate, before)
    ensures var writes := EvidenceWrites(gate, records);
      EvidenceIsClean(gate, Applied(before, writes))
      <==> forall j :: LastPut(writes, j) ==> !LeaksCardData(gate, writes[j].value)
  {
    hide Prohibited, LeaksCardData, EvidenceWrite;
    var writes := EvidenceWrites(gate, records);
    var after := Applied(before, writes);
    forall j | LastPut(writes, j)
      ensures writes[j].key in after && after[writes[j].key] == writes[j].value
      ensures Prohibited(gate, Object(writes[j].value)) != {} <==> LeaksCardData(gate, writes[j].value)
    {
      AppliedHolds(before, writes, writes[j].key);
      KeptCardDataExactly(gate, records[j]);
      EvidenceIsOwn(gate, records[j]);
    }
    forall key | key in after
      ensures (exists j :: LastPut(writes, j) && writes[j].key == key) || (key in before && after[key] == before[key])
    {
      AppliedHolds(before, writes, key);
    }
  }

  lemma EvidenceIsOwn(gate: Gate, r: Record)
    requires EvidenceWrite(gate, r).Put?
    ensures r.payload.Decoded? && !r.fault.ArrivalFails? && EvidenceWrite(gate, r) == Put(EvidenceKey(r), r.payload.raw)
  {
    hide Prohibited, EvidenceKey;
  }

  /** A valid event inside an envelope whose metadata carries a card number. */
  function LeakyEnvelope(event: Raw, pan: string): Raw {
    map["metadata" := Object(map["table-name" := Text("payment_outbox"), "operation" := Text("insert"), "pan" := Text(pan)]),
        "data" := Object(event)]
  }

  /** The envelope is kept with its card number, and its event goes on to publication. */
  lemma EnvelopeKeepsCardNumber(gate: Gate, event: Raw, pan: string, eventId: Option<string>, date: string)
    requires ValidateEvent(gate, event).Ok? && gate.casefold("pan") == "pan"
    ensures var raw := LeakyEnvelope(event, pan);
      var r := Record(eventId, date, Decoded(raw), NoFault);
      && EvidenceWrite(gate, r) == Put(EvidenceKey(r), raw)
      && "pan" in Prohibited(gate, Object(raw))
      && ReachesPublication(gate, r) && BusinessPayload(r) == Some(event)
  {
    hide ValidateEvent, EvidenceKey;
    var raw := LeakyEnvelope(event, pan);
    var metadata := raw["metadata"];
    assert "pan" in metadata.fields && gate.casefold("pan") in PROHIBITED_FIELDS;
    assert "pan" in Prohibited(gate, metadata);
    assert raw["data"] == Object(event);
    EnvelopeOpens(event, pan);
    CardDataIsRefused(gate, event);
  }

  lemma EnvelopeOpens(event: Raw, pan: string)
    ensures ExtractBusinessPayload(LeakyEnvelope(event, pan)) == Extracted(event)
  {
  }

  /** The actions of one worker up to the call that raises. */
  function Interrupted(w: World, id: nat, fault: Fault): World {
    match fault
    case NoFault => FromReserving(w, id)
    case ArrivalFails => FromReserving(w, id)
    case QuarantineFails => FromReserving(w, id)
    case ReserveFails => w
    case ReadFails => if InPhase(DoReserve(w, id, true), id, ReadingBack) then DoReserve(w, id, true) else FromReserving(w, id)
    case PutFails => DoReadBack(DoReserve(w, id, true), id)
    case MarkFails => DoPutConflict(DoPut(DoReadBack(DoReserve(w, id, true), id), id, true), id)
  }

  lemma InterruptedKeeps(gate: Gate, w: World, id: nat, fault: Fault)
    requires Invariant(gate, w)
    ensures Invariant(gate, Interrupted(w, id, fault)) && Forward(w, Interrupted(w, id, fault))
  {
    hide Invariant, Forward, DoReserve, DoReadBack, DoPut, DoMark, DoPutConflict, Business;
    Reflexive(w);
    var a := DoReserve(w, id, true);
    ReserveKeeps(gate, w, id, true);
    var b := DoReadBack(a, id);
    ReadBackKeeps(gate, a, id);
    ForwardThrough(w, a, b);
    var c := DoPut(b, id, true);
    PutKeeps(gate, b, id, true);
    ForwardThrough(w, b, c);
    PutConflictKeeps(gate, c, id);
    ForwardThrough(w, c, DoPutConflict(c, id));
    var d := DoMark(c, id, true);
    MarkKeeps(gate, c, id, true);
    ForwardThrough(w, c, d);
    PutConflictKeeps(gate, d, id);
    ForwardThrough(w, d, DoPutConflict(d, id));
  }

  /** Where a raising call leaves the worker: before the write that raised, unless it never came to that call. */
  lemma InterruptedWhere(w: World, id: nat, fault: Fault)
    requires id in w.workers && w.workers[id].phase == Reserving
    ensures id in Interrupted(w, id, fault).workers
    ensures var phase, known := Interrupted(w, id, fault).workers[id].phase, w.workers[id].payment.eventId in w.table;
      match fault
      case ReserveFails => phase == Reserving && Interrupted(w, id, fault) == w
      case ReadFails => phase == (if known then ReadingBack else Done(PublishedNow))
      case PutFails => phase in {Putting, Quarantining, Done(AlreadyPublished)}
      case MarkFails => phase in {Marking, Done(ConflictQuarantined), Done(AlreadyPublished)}
      case _ => phase in {Done(PublishedNow), Done(ConflictQuarantined), Done(AlreadyPublished)}
  {
    hide AcceptedKey, ConflictKey, DoReserve, DoReadBack, DoPut, DoMark, DoPutConflict;
    var worker, ids := w.workers[id], w.workers.Keys;
    Reserves(w, id, worker, ids);
    var reserved := DoReserve(w, id, true);
    Skips(reserved, id);
    if worker.payment.eventId in w.table { ReadsBack(reserved, id, worker, ids); }
    var read := DoReadBack(reserved, id);
    Skips(read, id);
    if read.workers[id].phase == Putting { FromPutting(read, id, worker, ids); }
    if read.workers[id].phase == Quarantining { PutsConflict(read, id, worker, ids); }
  }

  lemma FromPutting(w: World, id: nat, worker: Worker, ids: set<nat>)
    requires At(w, id, worker, Putting, ids) && MayMark(w, worker)
    ensures var put := DoPut(w, id, true);
      && At(put, id, worker, Marking, ids) && DoPutConflict(put, id) == put
      && At(DoMark(put, id, true), id, worker, Done(PublishedNow), ids)
      && DoPutConflict(DoMark(put, id, true), id) == DoMark(put, id, true)
  {
    hide AcceptedKey, ConflictKey, DoPut, DoMark, DoPutConflict;
    Puts(w, id, worker, ids);
    var put := DoPut(w, id, true);
    Skips(put, id);
    Marks(put, id, worker, ids);
    Skips(DoMark(put, id, true), id);
  }

  lemma ForwardThrough(a: World, b: World, c: World)
    requires Forward(a, b) && Forward(b, c)
    ensures Forward(a, c)
  {
    hide Business;
  }

  /** The record's event is published or in conflict, or the record is in the contract quarantine. */
  ghost predicate Settled(gate: Gate, w: World, quarantined: set<string>, r: Record) {
    if ContractVerdict(gate, r).Some? then ContractKey(r) in quarantined
    else
      && ReachesPublication(gate, r)
      && var payload := BusinessPayload(r).value;
      var payment := ValidateEvent(gate, payload).value;
      && payment.eventId in w.table
      && (if w.table[payment.eventId].identity == IdentityFingerprint(gate, payload)
          then w.table[payment.eventId].status == Published
          else ConflictKey(payment) in w.conflicts)
  }

  lemma SettledStays(gate: Gate, w: World, after: World, before: set<string>, now: set<string>, r: Record)
    requires Forward(w, after) && before <= now && Settled(gate, w, before, r)
    ensures Settled(gate, after, now, r)
  {
    hide ValidateEvent, IdentityFingerprint, ConflictKey, ContractKey, Business, ContractVerdict, ReachesWrite, BusinessPayload;
  }

  /** A worker whose actions ran to their end has settled its record. */
  lemma DoneIsSettled(gate: Gate, w: World, q: set<string>, r: Record, id: nat)
    requires Invariant(gate, w) && id in w.workers && ReachesPublication(gate, r)
    requires w.workers[id].payment == ValidateEvent(gate, BusinessPayload(r).value).value
    requires w.workers[id].identity == IdentityFingerprint(gate, BusinessPayload(r).value)
    requires w.workers[id].phase.Done? && w.workers[id].phase.result != Crashed
    ensures Settled(gate, w, q, r)
  {
    hide Invariant, ValidateEvent, IdentityFingerprint, EventOfIdentity, ConflictKey, ContractKey, Business, WellFormed;
    hide AcceptedKey, ContractVerdict, ReachesWrite, BusinessPayload, Raises;
    ThreeWays(gate, r);
    WorkerWasRight(gate, w, id);
  }

  /** An error other than a contract error is raised, or a call of the publication may raise. */
  predicate MayFail(gate: Gate, r: Record) {
    Raises(gate, r) || r.fault in {ReserveFails, ReadFails, PutFails, MarkFails}
  }

  /** The ids of the failed records, in their order. */
  function Reported(records: seq<Record>, fates: seq<bool>): seq<string>
    requires |fates| == |records|
  {
    if records == [] then []
    else
      var last := |records| - 1;
      Reported(records[..last], fates[..last]) + (if fates[last] then [RecordId(records[last])] else [])
  }

  /** Every record has failed or is settled; those that raise fail, and only those that may fail do. */
  ghost predicate Accounted(gate: Gate, records: seq<Record>, fates: seq<bool>, w: World, quarantined: set<string>) {
    && |fates| == |records|
    && forall i :: 0 <= i < |records| ==>
         && (Raises(gate, records[i]) ==> fates[i])
         && (fates[i] ==> MayFail(gate, records[i]))
         && (!fates[i] ==> Settled(gate, w, quarantined, records[i]))
  }

  lemma NoneAccounted(gate: Gate, w: World, quarantined: set<string>)
    ensures Accounted(gate, [], [], w, quarantined) && Reported([], []) == []
  {
  }

  lemma OneMoreAccounted(
    gate: Gate, records: seq<Record>, r: Record, fates: seq<bool>, failed: bool,
    before: World, after: World, earlier: set<string>, now: set<string>)
    requires Accounted(gate, records, fates, before, earlier)
    requires Forward(before, after) && earlier <= now
    requires if failed then MayFail(gate, r) else !Raises(gate, r) && Settled(gate, after, now, r)
    ensures Accounted(gate, records + [r], fates + [failed], after, now)
    ensures Reported(records + [r], fates + [failed]) == Reported(records, fates) + (if failed then [RecordId(r)] else [])
  {
    hide Settled, Raises, MayFail, RecordId, Forward;
    forall i | 0 <= i < |records| && !fates[i] ensures Settled(gate, after, now, records[i]) {
      SettledStays(gate, before, after, earlier, now, records[i]);
    }
    assert (records + [r])[..|records|] == records && (fates + [failed])[..|fates|] == fates;
  }

  // ---- what each call does to the stores and to the worker that makes it ----

  ghost predicate At(w: World, id: nat, worker: Worker, phase: WorkerPhase, ids: set<nat>) {
    id in w.workers && w.workers[id] == worker.(phase := phase) && w.workers.Keys == ids
  }

  lemma Reserves(w: World, id: nat, worker: Worker, ids: set<nat>)
    requires At(w, id, worker, Reserving, ids)
    ensures var after, eventId := DoReserve(w, id, true), worker.payment.eventId;
      && after.bucket == w.bucket && after.conflicts == w.conflicts
      && (if eventId in w.table then after.table == w.table && At(after, id, worker, ReadingBack, ids)
          else after.table == w.table[eventId := IdentityRow(worker.identity, Pending, AcceptedKey(worker.payment))]
               && At(after, id, worker, Putting, ids))
  {
    hide AcceptedKey;
  }

  lemma ReadsBack(w: World, id: nat, worker: Worker, ids: set<nat>)
    requires At(w, id, worker, ReadingBack, ids) && worker.payment.eventId in w.table
    ensures var after, row := DoReadBack(w, id), w.table[worker.payment.eventId];
      && after.table == w.table && after.bucket == w.bucket && after.conflicts == w.conflicts
      && (row.identity != worker.identity ==> At(after, id, worker, Quarantining, ids))
      && (row.identity == worker.identity && row.status == Published ==> At(after, id, worker, Done(AlreadyPublished), ids))
      && (row.identity == worker.identity && row.status == Pending ==> At(after, id, worker, Putting, ids))
  {
  }

  lemma Puts(w: World, id: nat, worker: Worker, ids: set<nat>)
    requires At(w, id, worker, Putting, ids)
    ensures var after := DoPut(w, id, true);
      && after.table == w.table && after.conflicts == w.conflicts
      && after.bucket == w.bucket[AcceptedKey(worker.payment) := worker.payment]
      && At(after, id, worker, Marking, ids)
  {
    hide AcceptedKey;
  }

  lemma Marks(w: World, id: nat, worker: Worker, ids: set<nat>)
    requires At(w, id, worker, Marking, ids) && MayMark(w, worker)
    ensures var after, eventId := DoMark(w, id, true), worker.payment.eventId;
      && after.table == w.table[eventId := w.table[eventId].(status := Published)]
      && after.bucket == w.bucket && after.conflicts == w.conflicts
      && At(after, id, worker, Done(PublishedNow), ids)
  {
  }

  lemma PutsConflict(w: World, id: nat, worker: Worker, ids: set<nat>)
    requires At(w, id, worker, Quarantining, ids)
    ensures var after := DoPutConflict(w, id);
      && after.table == w.table && after.bucket == w.bucket
      && after.conflicts == w.conflicts[ConflictKey(worker.payment) := worker.payment]
      && At(after, id, worker, Done(ConflictQuarantined), ids)
  {
    hide ConflictKey;
  }

  /** An action whose phase has not come, or has passed, does nothing. */
  lemma Skips(w: World, id: nat)
    requires id in w.workers
    ensures w.workers[id].phase != ReadingBack ==> DoReadBack(w, id) == w
    ensures w.workers[id].phase != Putting ==> DoPut(w, id, true) == w
    ensures w.workers[id].phase != Marking ==> DoMark(w, id, true) == w
    ensures w.workers[id].phase != Quarantining ==> DoPutConflict(w, id) == w
  {
  }

  class IdentityGate {
    var table: map<string, IdentityRow>
    var bucket: map<string, PaymentEvent>
    var conflicts: map<string, PaymentEvent>
    var contractQuarantine: map<string, ContractObject>
    var arrivals: map<string, Raw>

    constructor ()
      ensures table == map[] && bucket == map[] && conflicts == map[] && contractQuarantine == map[] && arrivals == map[]
    {
      table, bucket, conflicts, contractQuarantine, arrivals := map[], map[], map[], map[], map[];
    }

    ghost predicate Mirrors(w: World)
      reads this
    {
      w.table == table && w.bucket == bucket && w.conflicts == conflicts
    }

    /** Reserve, put, mark; true unless a call raised.  It performs exactly a worker's actions. */
    method PublishAccepted(payment: PaymentEvent, identity: Identity, fault: Fault, ghost w: World, ghost id: nat)
      returns (ok: bool)
      requires Mirrors(w)
      requires id in w.workers && w.workers[id] == Worker(payment, identity, Reserving)
      modifies this`table, this`bucket, this`conflicts
      ensures var after := Interrupted(w, id, fault);
        && Mirrors(after)
        && id in after.workers
        && after.workers[id].payment == payment && after.workers[id].identity == identity
        && (ok <==> after.workers[id].phase.Done?)
        && after.workers.Keys == w.workers.Keys
        && (ok ==> after.workers[id].phase.result != Crashed)
        && (!ok ==> fault !in {NoFault, ArrivalFails, QuarantineFails})
    {
      hide AcceptedKey, ConflictKey, DoReserve, DoReadBack, DoPut, DoMark, DoPutConflict;
      var key := AcceptedKey(payment);
      ghost var worker, ids := w.workers[id], w.workers.Keys;
      if fault == ReserveFails { return false; }
      Reserves(w, id, worker, ids);
      ghost var now := DoReserve(w, id, true);
      if payment.eventId !in table {
        table := table[payment.eventId := IdentityRow(identity, Pending, key)];
        Skips(now, id);
      } else {
        if fault == ReadFails { return false; }
        var existing := table[payment.eventId];
        ReadsBack(now, id, worker, ids);
        now := DoReadBack(now, id);
        Skips(now, id);
        if existing.identity != identity {
          if fault == PutFails { return false; }
          conflicts := conflicts[ConflictKey(payment) := payment];
          PutsConflict(now, id, worker, ids);
          return true;
        }
        if existing.status == Published { return true; }
      }
      if fault == PutFails { return false; }
      PutAndMark(payment, key, fault, now, id, worker, ids);
      ok := fault != MarkFails;
    }

    /** The object write and the status update, from a row that holds the worker's identity. */
    method PutAndMark(
      payment: PaymentEvent, key: string, fault: Fault, ghost w: World, ghost id: nat, ghost worker: Worker, ghost ids: set<nat>)
      requires Mirrors(w) && At(w, id, worker, Putting, ids) && MayMark(w, worker)
      requires worker.payment == payment && key == AcceptedKey(payment)
      modifies this`table, this`bucket
      ensures var put := DoPut(w, id, true); var after := if fault == MarkFails then put else DoMark(put, id, true);
        && Mirrors(after) && DoPutConflict(after, id) == after
        && At(after, id, worker, if fault == MarkFails then Marking else Done(PublishedNow), ids)
    {
      hide AcceptedKey, DoPut, DoMark, DoPutConflict;
      bucket := bucket[key := payment];
      Puts(w, id, worker, ids);
      ghost var now := DoPut(w, id, true);
      Skips(now, id);
      if fault == MarkFails { return; }
      table := table[payment.eventId := table[payment.eventId].(status := Published)];
      Marks(now, id, worker, ids);
      Skips(DoMark(now, id, true), id);
    }

    /** A refused record goes to the contract quarantine; false if that write raises. */
    method Quarantine(gate: Gate, r: Record, raw: Raw, reason: Reason) returns (ok: bool)
      requires ContractVerdict(gate, r) == Some(reason)
      requires raw == if r.payload.Decoded? then r.payload.raw else map[]
      modifies this`contractQuarantine
      ensures ok <==> !r.fault.QuarantineFails?
      ensures contractQuarantine == Written(old(contractQuarantine), QuarantineWrite(gate, r))
    {
      hide ContractVerdict;
      if r.fault.QuarantineFails? { return false; }
      contractQuarantine := contractQuarantine[ContractKey(r) := ContractObject(reason, Redact(gate, Object(raw)))];
      ok := true;
    }

    /** Opens, checks, keeps and validates; the payload to publish, a contract error, or neither when a call raised. */
    method Admit(gate: Gate, r: Record) returns (raised: bool, payload: Raw, error: Option<Reason>)
      modifies this`arrivals
      ensures arrivals == Written(old(arrivals), EvidenceWrite(gate, r))
      ensures raised <==> Raises(gate, r)
      ensures !raised ==> error == ContractVerdict(gate, r)
      ensures !raised && error.None? ==> ReachesPublication(gate, r) && BusinessPayload(r) == Some(payload)
    {
      hide ValidateEvent, Prohibited, ExtractBusinessPayload, EvidenceKey;
      raised, payload, error := false, map[], None;
      if r.payload.Undecodable? { return true, payload, None; }
      if r.payload.NotAnObject? { return false, payload, Some(NonObjectEvent); }
      var extraction := ExtractBusinessPayload(r.payload.raw);
      if extraction.TypeFails? { return true, payload, None; }
      if extraction.EnvelopeRefused? { return false, payload, Some(extraction.reason); }
      payload := extraction.payload;
      var prohibited := Prohibited(gate, Object(payload));
      if prohibited != {} { return false, payload, Some(ProhibitedFields(prohibited)); }
      if r.fault.ArrivalFails? { return true, payload, None; }
      arrivals := arrivals[EvidenceKey(r) := r.payload.raw];
      var validated := ValidateEvent(gate, payload);
      if validated.Err? { error := Some(validated.error); }
    }

    /**
     One record: settled, or failed, or aborting the batch because even its quarantine write raised.
     */
    method HandleRecord(gate: Gate, r: Record, ghost start: World, ghost id: nat)
      returns (failed: bool, aborted: bool, ghost end: World)
      requires Invariant(gate, start) && Mirrors(start) && id !in start.workers
      modifies this
      ensures Invariant(gate, end) && Mirrors(end) && Forward(start, end)
      ensures end == if ReachesPublication(gate, r)
                     then Interrupted(DoReceive(gate, start, id, BusinessPayload(r).value), id, r.fault) else start
      ensures end.workers.Keys <= start.workers.Keys + {id}
      ensures arrivals == Written(old(arrivals), EvidenceWrite(gate, r))
      ensures contractQuarantine == Written(old(contractQuarantine), QuarantineWrite(gate, r))
      ensures aborted <==> ContractVerdict(gate, r).Some? && r.fault.QuarantineFails?
      ensures failed <==> Raises(gate, r) || (ReachesPublication(gate, r) && id in end.workers && !end.workers[id].phase.Done?)
      ensures failed ==> MayFail(gate, r)
      ensures failed ==> ContractVerdict(gate, r).None?
      ensures !failed && !aborted ==> Settled(gate, end, contractQuarantine.Keys, r)
    {
      hide Invariant, ValidateEvent, IdentityFingerprint, EventOfIdentity, Forward, Interrupted, ContractKey, EvidenceWrite;
      hide ContractVerdict, Raises, ReachesWrite, BusinessPayload, Redact;
      failed, aborted, end := false, false, start;
      Reflexive(start);
      ThreeWays(gate, r);
      var raised, payload, error := Admit(gate, r);
      if raised { return true, false, start; }
      if error.Some? {
        var raw := if r.payload.Decoded? then r.payload.raw else map[];
        var quarantined := Quarantine(gate, r, raw, error.value);
        aborted := !quarantined;
        return;
      }
      var payment, identity := ValidateEvent(gate, payload).value, IdentityFingerprint(gate, payload);
      ghost var received := DoReceive(gate, start, id, payload);
      ReceiveKeeps(gate, start, id, payload);
      var ok := PublishAccepted(payment, identity, r.fault, received, id);
      InterruptedKeeps(gate, received, id, r.fault);
      end := Interrupted(received, id, r.fault);
      ForwardThrough(start, received, end);
      failed := !ok;
      if ok { DoneIsSettled(gate, end, contractQuarantine.Keys, r, id); }
    }

    /**
     Every record is settled or reported; only records that raised are reported; the batch fails as a whole only
     if a quarantine write raised; and both buckets hold exactly the records' writes, in order.
     */
    method HandleBatch(gate: Gate, records: seq<Record>, ghost start: World, ghost base: nat)
      returns (failures: Option<seq<string>>, ghost fates: seq<bool>, ghost end: World)
      requires Invariant(gate, start) && Mirrors(start)
      requires forall id :: id in start.workers ==> id < base
      modifies this
      ensures Invariant(gate, end) && Mirrors(end) && Forward(start, end)
      ensures failures.None? ==> exists k ::
                && 0 <= k < |records| && ContractVerdict(gate, records[k]).Some? && records[k].fault.QuarantineFails?
                && arrivals == Applied(old(arrivals), EvidenceWrites(gate, records[..k + 1]))
                && contractQuarantine == Applied(old(contractQuarantine), QuarantineWrites(gate, records[..k + 1]))
      ensures failures.Some? ==>
                && arrivals == Applied(old(arrivals), EvidenceWrites(gate, records))
                && contractQuarantine == Applied(old(contractQuarantine), QuarantineWrites(gate, records))
      ensures failures.Some? ==>
                && Accounted(gate, records, fates, end, contractQuarantine.Keys)
                && failures.value == Reported(records, fates)
    {
      hide Invariant, Settled, Forward, ContractVerdict, Raises, EvidenceWrite, QuarantineWrite, Written, RecordId, Accounted;
      hide ReachesPublication, Interrupted, DoReceive, BusinessPayload, MayFail, Applied, Reported;
      var reported: seq<string> := [];
      fates := [];
      end := start;
      NothingWritten(gate, arrivals, contractQuarantine, records);
      Reflexive(start);
      NoneAccounted(gate, start, contractQuarantine.Keys);
      for k := 0 to |records|
        invariant Invariant(gate, end) && Mirrors(end) && Forward(start, end)
        invariant forall id :: id in end.workers ==> id < base + k
        invariant arrivals == Applied(old(arrivals), EvidenceWrites(gate, records[..k]))
        invariant contractQuarantine == Applied(old(contractQuarantine), QuarantineWrites(gate, records[..k]))
        invariant Accounted(gate, records[..k], fates, end, contractQuarantine.Keys)
        invariant |fates| == k && reported == Reported(records[..k], fates)
      {
        ghost var before, quarantined := end, contractQuarantine;
        OneMoreWritten(gate, old(arrivals), old(contractQuarantine), records, k);
        var failed, aborted;
        failed, aborted, end := HandleRecord(gate, records[k], before, base + k);
        ForwardThrough(start, before, end);
        if aborted { return None, fates, end; }
        WrittenGrows(quarantined, QuarantineWrite(gate, records[k]));
        assert records[..k + 1] == records[..k] + [records[k]];
        OneMoreAccounted(
          gate, records[..k], records[k], fates, failed, before, end, quarantined.Keys, contractQuarantine.Keys);
        if failed { reported := reported + [RecordId(records[k])]; }
        fates := fates + [failed];
      }
      assert records[..|records|] == records;
      failures := Some(reported);
    }
  }

  lemma WrittenGrows<V>(m: map<string, V>, write: Write<V>)
    ensures m.Keys <= Written(m, write).Keys
  {
  }

  lemma CardDataIsRefused(gate: Gate, raw: Raw)
    ensures Prohibited(gate, Object(raw)) != {} ==> ValidateEvent(gate, raw).Err?
  {
    hide Prohibited, ValidateIdentifier;
  }

  lemma Reflexive(w: World)
    ensures Forward(w, w)
  {
  }
}
