/**
 The two halves joined: raw events published through the identity gate and carried through completed date runs
 are shown by the finance views as the ledger store projects the same raw events.
 */
module Agreement {
  import opened Wrappers
  import opened Contracts
  import opened Ledger
  import opened History
  import opened Projection
  import opened Intake
  import opened Pipeline
  import opened PipelineLaws
  import opened FinanceView
  import opened DateRuns
  import Publication
  import Runs
  import RunLaws

  // ---- where published objects come from ----

  /** The raw events that workers were started for. */
  function ReceivedRaws(actions: seq<Publication.Action>): seq<Raw> {
    if actions == [] then []
    else
      var last := actions[|actions| - 1];
      ReceivedRaws(actions[..|actions| - 1]) + (if last.Receive? then [last.raw] else [])
  }

  ghost predicate CameIn(gate: Gate, raws: seq<Raw>, e: PaymentEvent) {
    exists raw :: raw in raws && ValidateEvent(gate, raw) == Ok(e)
  }

  /** Every worker's event, and every published object, is some received raw event, validated. */
  ghost predicate AllCameIn(gate: Gate, raws: seq<Raw>, w: Publication.World) {
    && (forall id :: id in w.workers ==> CameIn(gate, raws, w.workers[id].payment))
    && (forall key :: key in w.bucket ==> CameIn(gate, raws, w.bucket[key]))
  }

  lemma MoreCameIn(gate: Gate, raws: seq<Raw>, more: seq<Raw>, w: Publication.World)
    requires AllCameIn(gate, raws, w)
    ensures AllCameIn(gate, raws + more, w)
  {
    hide ValidateEvent;
    forall e: PaymentEvent | CameIn(gate, raws, e) ensures CameIn(gate, raws + more, e) {
      var raw :| raw in raws && ValidateEvent(gate, raw) == Ok(e);
      assert raw in raws + more;
    }
  }

  lemma ReceiveCameIn(gate: Gate, raws: seq<Raw>, w: Publication.World, id: nat, raw: Raw)
    requires AllCameIn(gate, raws, w) && raw in raws
    ensures AllCameIn(gate, raws, Publication.DoReceive(gate, w, id, raw))
  {
    hide ValidateEvent, IdentityFingerprint;
    if ValidateEvent(gate, raw).Ok? {
      assert CameIn(gate, raws, ValidateEvent(gate, raw).value);
    }
  }

  /** No other action brings a new event in. */
  lemma OthersCameIn(gate: Gate, raws: seq<Raw>, w: Publication.World, a: Publication.Action)
    requires AllCameIn(gate, raws, w) && !a.Receive?
    ensures AllCameIn(gate, raws, Publication.Step(gate, w, a))
  {
    hide CameIn, Publication.AcceptedKey, Publication.ConflictKey;
  }

  lemma {:induction false} ObjectsCameIn(gate: Gate, actions: seq<Publication.Action>)
    ensures AllCameIn(gate, ReceivedRaws(actions), Publication.After(gate, actions))
  {
    hide AllCameIn, Publication.Step;
    if actions == [] {
      NothingCameIn(gate);
    } else {
      var front, last := actions[..|actions| - 1], actions[|actions| - 1];
      ObjectsCameIn(gate, front);
      var before := Publication.After(gate, front);
      if last.Receive? {
        MoreCameIn(gate, ReceivedRaws(front), [last.raw], before);
        ReceiveCameIn(gate, ReceivedRaws(actions), before, last.worker, last.raw);
        ReceiveStep(gate, before, last);
      } else {
        assert ReceivedRaws(actions) == ReceivedRaws(front);
        OthersCameIn(gate, ReceivedRaws(front), before, last);
      }
    }
  }

  lemma ReceiveStep(gate: Gate, w: Publication.World, a: Publication.Action)
    requires a.Receive?
    ensures Publication.Step(gate, w, a) == Publication.DoReceive(gate, w, a.worker, a.raw)
  {
  }

  lemma NothingCameIn(gate: Gate)
    ensures AllCameIn(gate, [], Publication.EMPTY_WORLD)
  {
  }

  lemma {:induction false} EarlierRaws(actions: seq<Publication.Action>, k: nat)
    requires k <= |actions|
    ensures forall raw :: raw in ReceivedRaws(actions[..k]) ==> raw in ReceivedRaws(actions)
  {
    if k < |actions| {
      var front := actions[..|actions| - 1];
      assert front[..k] == actions[..k];
      EarlierRaws(front, k);
    } else {
      assert actions[..k] == actions;
    }
  }

  // ---- deliveries and the store ----

  /** Each delivered event was, at some point, an object that the gate had published. */
  ghost predicate PublishedDeliveries(gate: Gate, actions: seq<Publication.Action>, runs: seq<DateRun>) {
    forall i, id :: 0 <= i < |runs| && id in runs[i].incoming ==> WasPublished(gate, actions, runs[i].incoming[id])
  }

  ghost predicate WasPublished(gate: Gate, actions: seq<Publication.Action>, e: PaymentEvent) {
    exists k: nat, key :: k <= |actions| && key in Publication.After(gate, actions[..k]).bucket
                          && Publication.After(gate, actions[..k]).bucket[key] == e
  }

  /** Every event id that a raw event claims has been delivered. */
  ghost predicate FullyDelivered(gate: Gate, raws: seq<Raw>, runs: seq<DateRun>) {
    forall raw, id :: raw in raws && Claims(gate, raw, id) ==> id in DeliveredBy(runs)
  }

  lemma PublishedCameIn(gate: Gate, actions: seq<Publication.Action>, e: PaymentEvent)
    requires WasPublished(gate, actions, e)
    ensures CameIn(gate, ReceivedRaws(actions), e)
  {
    hide ValidateEvent, Publication.After, ReceivedRaws;
    var k: nat, key :| k <= |actions| && key in Publication.After(gate, actions[..k]).bucket
                       && Publication.After(gate, actions[..k]).bucket[key] == e;
    ObjectsCameIn(gate, actions[..k]);
    EarlierRaws(actions, k);
    assert CameIn(gate, ReceivedRaws(actions[..k]), e);
  }

  lemma {:induction false} DeliveredIsIncoming(runs: seq<DateRun>, id: string)
    requires id in DeliveredBy(runs)
    ensures exists i :: 0 <= i < |runs| && id in runs[i].incoming && runs[i].incoming[id] == DeliveredBy(runs)[id]
  {
    var front, last := runs[..|runs| - 1], |runs| - 1;
    if id in DeliveredBy(front) {
      DeliveredIsIncoming(front, id);
      var i :| 0 <= i < |front| && id in front[i].incoming && front[i].incoming[id] == DeliveredBy(front)[id];
      assert runs[i] == front[i];
    } else {
      assert runs[last].incoming[id] == DeliveredBy(runs)[id];
    }
  }

  /** What was delivered under an id reads like what the store accepted under it. */
  lemma DeliveredLikeAccepted(
    gate: Gate, rules: PostingRules, storeRuns: seq<Runs.RunInput>, actions: seq<Publication.Action>, runs: seq<DateRun>,
    id: string)
    requires PublishedDeliveries(gate, actions, runs) && Keyed(DeliveredBy(runs))
    requires forall raw :: raw in ReceivedRaws(actions) ==> raw in RunLaws.CommittedRaws(gate, rules, storeRuns)
    requires FullyDelivered(gate, RunLaws.CommittedRaws(gate, rules, storeRuns), runs)
    requires RunLaws.RivalsProjectAlike(gate, RunLaws.CommittedRaws(gate, rules, storeRuns))
    ensures ReadsLike(DeliveredBy(runs), RunLaws.After(gate, rules, storeRuns).accepted, id)
  {
    hide ValidateEvent, RunLaws.After, RunLaws.CommittedRaws, DeliveredBy, Projected, IdentityFingerprint, ReceivedRaws;
    RunLaws.AcceptedIsExplained(gate, rules, storeRuns, id);
    var db := RunLaws.After(gate, rules, storeRuns);
    if id in DeliveredBy(runs) {
      DeliveredIsIncoming(runs, id);
      var i :| 0 <= i < |runs| && id in runs[i].incoming && runs[i].incoming[id] == DeliveredBy(runs)[id];
      PublishedCameIn(gate, actions, runs[i].incoming[id]);
      var raw :| raw in ReceivedRaws(actions) && ValidateEvent(gate, raw) == Ok(DeliveredBy(runs)[id]);
      assert Claims(gate, raw, id);
      var origin :| origin in RunLaws.CommittedRaws(gate, rules, storeRuns) && RunLaws.CameFrom(gate, db, origin, id);
    }
  }

  lemma DeliveredAsAccepted(
    gate: Gate, rules: PostingRules, storeRuns: seq<Runs.RunInput>, actions: seq<Publication.Action>, runs: seq<DateRun>)
    requires PublishedDeliveries(gate, actions, runs) && Keyed(DeliveredBy(runs))
    requires forall raw :: raw in ReceivedRaws(actions) ==> raw in RunLaws.CommittedRaws(gate, rules, storeRuns)
    requires FullyDelivered(gate, RunLaws.CommittedRaws(gate, rules, storeRuns), runs)
    requires RunLaws.RivalsProjectAlike(gate, RunLaws.CommittedRaws(gate, rules, storeRuns))
    ensures SameProjected(DeliveredBy(runs), RunLaws.After(gate, rules, storeRuns).accepted)
  {
    hide RunLaws.After, RunLaws.CommittedRaws, DeliveredBy, ReadsLike, ReceivedRaws, PublishedDeliveries, FullyDelivered;
    hide RunLaws.RivalsProjectAlike, Keyed, SameProjected, Runs.Sound;
    var accepted := RunLaws.After(gate, rules, storeRuns).accepted;
    forall id ensures ReadsLike(DeliveredBy(runs), accepted, id) {
      DeliveredLikeAccepted(gate, rules, storeRuns, actions, runs, id);
    }
    AllReadLike(DeliveredBy(runs), accepted);
  }

  ghost predicate ReadsLike(a: Accepted, b: Accepted, id: string) {
    (id in a <==> id in b) && (id in b ==> Projected(a[id]) == Projected(b[id]))
  }

  lemma AllReadLike(a: Accepted, b: Accepted)
    requires forall id :: ReadsLike(a, b, id)
    ensures SameProjected(a, b)
  {
    hide Projected;
    forall id ensures (id in a <==> id in b) && (id in b ==> Projected(a[id]) == Projected(b[id])) {
      assert ReadsLike(a, b, id);
    }
    assert a.Keys == b.Keys;
  }

  // ---- main result ----

  /** The view shows of a transaction what the tables hold, unless some run excepted it. */
  ghost predicate ShowsTables(dateOf: Dating, steps: seq<Step>, tables: Tables, t: string) {
    var lake := Pipeline.After(dateOf, steps);
    && (t in DimPaymentCurrent(lake) <==>
          (exists s :: s in tables.states && s.transactionId == t) && forall k: nat :: !ExceptsAt(dateOf, steps, k, t))
    && (t in DimPaymentCurrent(lake) ==>
          && DimPaymentCurrent(lake)[t].state in tables.states
          && DimPaymentCurrent(lake)[t].state.transactionId == t
          && forall line :: line in LinesOfTransaction(lake, t) <==> line in tables.ledger && line.transactionId == t)
  }

  /**
   Raw events published through the gate, by any interleaving of workers, and carried through completed runs
   that cover their converted dates: for every transaction, the finance views show exactly the state row and
   ledger lines that the store projects from the same raw events, however either side ordered or repeated them,
   unless some run found the transaction's history invalid.
   */
  lemma ViewsAgreeWithStore(
    gate: Gate, dateOf: Dating, storeRuns: seq<Runs.RunInput>, actions: seq<Publication.Action>, runs: seq<DateRun>, t: string)
    requires RunLaws.RivalsProjectAlike(gate, RunLaws.CommittedRaws(gate, CONFIGURED_RULES, storeRuns))
    requires forall raw :: raw in ReceivedRaws(actions) ==> raw in RunLaws.CommittedRaws(gate, CONFIGURED_RULES, storeRuns)
    requires PublishedDeliveries(gate, actions, runs)
    requires FullyDelivered(gate, RunLaws.CommittedRaws(gate, CONFIGURED_RULES, storeRuns), runs)
    requires AllEnabled(dateOf, InSequence(runs)) && Covered(dateOf, runs)
    requires t in TransactionSet(RunLaws.After(gate, CONFIGURED_RULES, storeRuns).accepted)
    ensures ShowsTables(dateOf, InSequence(runs), RunLaws.After(gate, CONFIGURED_RULES, storeRuns).tables, t)
  {
    hide RunLaws.After, RunLaws.CommittedRaws, DeliveredBy, ReceivedRaws, PublishedDeliveries, FullyDelivered, InSequence;
    hide RunLaws.RivalsProjectAlike, Keyed, Project, AllEnabled, Covered, SameProjected, TransactionSet, Pipeline.After, ExceptsAt;
    hide DimPaymentCurrent, LinesOfTransaction, Runs.Sound, Runs.Postable;
    var db := RunLaws.After(gate, CONFIGURED_RULES, storeRuns);
    RunsAreKeyed(dateOf, runs);
    RunLaws.SoundIsKeyed(gate, db);
    DeliveredAsAccepted(gate, CONFIGURED_RULES, storeRuns, actions, runs);
    SameTransactions(DeliveredBy(runs), db.accepted);
    CoveredRunsRefineRebuild(dateOf, runs, t);
    ProjectionIgnoresProvenance(DeliveredBy(runs), db.accepted, CONFIGURED_RULES);
    RunLaws.TablesMirrorHistory(gate, CONFIGURED_RULES, storeRuns);
  }

  lemma RunsAreKeyed(dateOf: Dating, runs: seq<DateRun>)
    requires AllEnabled(dateOf, InSequence(runs))
    ensures Keyed(DeliveredBy(runs))
  {
    hide AllEnabled, Invariant, Pipeline.After;
    RunsSettle(dateOf, runs, "", StateMerge);
    AlwaysInvariant(dateOf, InSequence(runs));
    FromInvariant(Pipeline.After(dateOf, InSequence(runs)), "");
  }

  lemma SameTransactions(a: Accepted, b: Accepted)
    requires SameProjected(a, b)
    ensures TransactionSet(a) == TransactionSet(b)
  {
    forall id | id in a ensures a[id].transactionId == b[id].transactionId {
      assert Projected(a[id]).transactionId == Projected(b[id]).transactionId;
    }
  }
}
