/**
 The lifecycle kernel: the ordered list of reasons for which a whole transaction is rejected, and
 the current-state row of an accepted one.  Shape lemmas say what every accepted history looks like.
 */
module Lifecycle {
  import opened Wrappers
  import opened Sums
  import opened Contracts

  datatype Violation =
    | TransactionVersionConflict
    | TransactionVersionGap
    | CurrencyMutation
    | ProcessorMutation
    | MerchantMutation
    | DuplicateAuthorization
    | CaptureWithoutAuthorization
    | MissingAuthorization
    | CaptureBeforeAuthorization
    | ReversalWithoutCapture
    | ReversalBeforeCapture
    | CaptureExceedsAuthorization
    | ReversalExceedsCapture

  datatype Status =
    | Authorized
    | PartiallyCaptured
    | Captured
    | PartiallyRefunded
    | Refunded
    | PartiallyChargedBack
    | ChargedBack

  datatype PaymentState = PaymentState(
    transactionId: string,
    currentVersion: int,
    currentEventId: string,
    status: Status,
    authorizedMinor: int,
    capturedMinor: int,
    refundedMinor: int,
    chargebackMinor: int,
    currency: string,
    processorId: string,
    merchantId: string
  )

  // ---- columns and row predicates ----

  function Version(e: PaymentEvent): int { e.transactionVersion }

  function Amount(e: PaymentEvent): int { e.amountMinor }

  function Currency(e: PaymentEvent): string { e.currency }

  function Processor(e: PaymentEvent): string { e.processorId }

  function Merchant(e: PaymentEvent): string { e.merchantId }

  predicate IsAuthorization(e: PaymentEvent) { e.eventType.Authorization? }

  predicate IsCapture(e: PaymentEvent) { e.eventType.Capture? }

  predicate IsRefund(e: PaymentEvent) { e.eventType.Refund? }

  predicate IsChargeback(e: PaymentEvent) { e.eventType.Chargeback? }

  predicate IsReversal(e: PaymentEvent) { e.eventType.Refund? || e.eventType.Chargeback? }

  function Image<T(==,!new), U(==)>(s: seq<T>, f: T -> U): set<U> {
    set x | x in s :: f(x)
  }

  function MinVersion(s: seq<PaymentEvent>): int
    requires s != []
  {
    if |s| == 1 then s[0].transactionVersion
    else
      var rest := MinVersion(s[1..]);
      if s[0].transactionVersion < rest then s[0].transactionVersion else rest
  }

  function MaxVersion(s: seq<PaymentEvent>): int
    requires s != []
  {
    if |s| == 1 then s[0].transactionVersion
    else
      var rest := MaxVersion(s[1..]);
      if s[0].transactionVersion > rest then s[0].transactionVersion else rest
  }

  lemma {:induction false} Minimum(s: seq<PaymentEvent>) returns (at: PaymentEvent)
    requires s != []
    ensures at in s && at.transactionVersion == MinVersion(s)
    ensures forall e :: e in s ==> MinVersion(s) <= e.transactionVersion
  {
    at := s[0];
    if |s| > 1 {
      var rest := Minimum(s[1..]);
      if rest.transactionVersion <= at.transactionVersion { at := rest; }
    }
  }

  lemma {:induction false} Maximum(s: seq<PaymentEvent>) returns (at: PaymentEvent)
    requires s != []
    ensures at in s && at.transactionVersion == MaxVersion(s)
    ensures forall e :: e in s ==> e.transactionVersion <= MaxVersion(s)
  {
    at := s[0];
    if |s| > 1 {
      var rest := Maximum(s[1..]);
      if rest.transactionVersion >= at.transactionVersion { at := rest; }
    }
  }

  function AuthorizedMinor(s: seq<PaymentEvent>): int { SumSeq(Filter(s, IsAuthorization), Amount) }

  function CapturedMinor(s: seq<PaymentEvent>): int { SumSeq(Filter(s, IsCapture), Amount) }

  function RefundedMinor(s: seq<PaymentEvent>): int { SumSeq(Filter(s, IsRefund), Amount) }

  function ChargebackMinor(s: seq<PaymentEvent>): int { SumSeq(Filter(s, IsChargeback), Amount) }

  // ---- the kernel ----

  /** First violation of a transaction's history, in the order in which the store checks them. */
  function Assess(events: seq<PaymentEvent>): Option<Violation>
    requires events != []
  {
    var authorizations := Filter(events, IsAuthorization);
    var captures := Filter(events, IsCapture);
    var reversals := Filter(events, IsReversal);
    var captured := CapturedMinor(events);
    if |Image(events, Version)| != |events| then Some(TransactionVersionConflict)
    else if MinVersion(events) != 1 || MaxVersion(events) != |events| then Some(TransactionVersionGap)
    else if |Image(events, Currency)| != 1 then Some(CurrencyMutation)
    else if |Image(events, Processor)| != 1 then Some(ProcessorMutation)
    else if |Image(events, Merchant)| != 1 then Some(MerchantMutation)
    else if |authorizations| > 1 then Some(DuplicateAuthorization)
    else if authorizations == [] && captures != [] then Some(CaptureWithoutAuthorization)
    else if authorizations == [] then Some(MissingAuthorization)
    else if captures != [] && MinVersion(captures) <= authorizations[0].transactionVersion then
      Some(CaptureBeforeAuthorization)
    else if reversals != [] && captures == [] then Some(ReversalWithoutCapture)
    else if reversals != [] && MinVersion(reversals) <= MinVersion(captures) then Some(ReversalBeforeCapture)
    else if captured > AuthorizedMinor(events) then Some(CaptureExceedsAuthorization)
    else if RefundedMinor(events) + ChargebackMinor(events) > captured then Some(ReversalExceedsCapture)
    else None
  }

  function StatusOf(authorized: int, captured: int, refunded: int, chargedBack: int): Status {
    if chargedBack > 0 then
      if refunded + chargedBack == captured then ChargedBack else PartiallyChargedBack
    else if refunded > 0 then
      if refunded == captured then Refunded else PartiallyRefunded
    else if captured > 0 then
      if captured == authorized then Captured else PartiallyCaptured
    else Authorized
  }

  /** The state row of an accepted history: its last event and its totals. */
  function StateOf(events: seq<PaymentEvent>): PaymentState
    requires events != []
  {
    var current := events[|events| - 1];
    var authorized := AuthorizedMinor(events);
    var captured := CapturedMinor(events);
    var refunded := RefundedMinor(events);
    var chargedBack := ChargebackMinor(events);
    PaymentState(
      current.transactionId, current.transactionVersion, current.eventId,
      StatusOf(authorized, captured, refunded, chargedBack),
      authorized, captured, refunded, chargedBack,
      current.currency, current.processorId, current.merchantId)
  }

  // ---- filters and images ----

  lemma {:induction false} FilterPair<T(!new)>(s: seq<T>, p: T -> bool)
    ensures |Filter(s, p)| > 1 <==> exists i, j :: 0 <= i < j < |s| && p(s[i]) && p(s[j])
  {
    if s != [] {
      FilterPair(s[1..], p);
      var rest := Filter(s[1..], p);
      if p(s[0]) && rest != [] {
        assert rest[0] in s[1..] && p(rest[0]);
        var k :| 0 <= k < |s| - 1 && s[1..][k] == rest[0];
        assert p(s[0]) && p(s[k + 1]);
      }
      if i, j :| 0 <= i < j < |s| && p(s[i]) && p(s[j]) {
        assert s[j] == s[1..][j - 1];
        if i > 0 { assert s[i] == s[1..][i - 1]; }
      }
      if i, j :| 0 <= i < j < |s[1..]| && p(s[1..][i]) && p(s[1..][j]) {
        assert p(s[i + 1]) && p(s[j + 1]);
      }
    }
  }

  ghost predicate DistinctBy<T(!new), U(!new)>(s: seq<T>, f: T -> U) {
    forall i, j :: 0 <= i < j < |s| ==> f(s[i]) != f(s[j])
  }

  lemma DistinctByTail<T(!new), U(!new)>(s: seq<T>, f: T -> U)
    requires s != []
    ensures DistinctBy(s, f) <==> DistinctBy(s[1..], f) && f(s[0]) !in Image(s[1..], f)
  {
    var tail := s[1..];
    assert forall k :: 0 <= k < |tail| ==> tail[k] == s[k + 1];
    if DistinctBy(tail, f) && f(s[0]) !in Image(tail, f) {
      forall i, j | 0 <= i < j < |s| ensures f(s[i]) != f(s[j]) {
        assert s[j] == tail[j - 1] && s[j] in tail;
        if i > 0 { assert s[i] == tail[i - 1]; }
      }
    }
  }

  lemma {:induction false} ImageSize<T(!new), U(!new)>(s: seq<T>, f: T -> U)
    ensures |Image(s, f)| <= |s|
    ensures |Image(s, f)| == |s| <==> DistinctBy(s, f)
  {
    if s != [] {
      ImageSize(s[1..], f);
      DistinctByTail(s, f);
      assert forall x :: x in s <==> x == s[0] || x in s[1..];
      assert Image(s, f) == Image(s[1..], f) + {f(s[0])};
    }
  }

  lemma ImageConstant<T(!new), U>(s: seq<T>, f: T -> U)
    requires s != []
    ensures |Image(s, f)| == 1 <==> forall x :: x in s ==> f(x) == f(s[0])
  {
    assert f(s[0]) in Image(s, f);
    if forall x :: x in s ==> f(x) == f(s[0]) {
      assert Image(s, f) == {f(s[0])};
    }
    if |Image(s, f)| == 1 {
      forall x | x in s ensures f(x) == f(s[0]) {
        assert f(x) in Image(s, f);
        assert |Image(s, f) - {f(s[0])}| == 0;
      }
    }
  }

  // ---- shape of an accepted history ----

  /** Rows as the store reads them: by version, ties broken otherwise. */
  ghost predicate ByVersion(rows: seq<PaymentEvent>) {
    forall i, j :: 0 <= i < j < |rows| ==> rows[i].transactionVersion <= rows[j].transactionVersion
  }

  /** The grammar of accepted histories, independent of the order of the checks. */
  ghost predicate AcceptedShape(rows: seq<PaymentEvent>) {
    && rows != []
    && OneToN(rows)
    && (forall e :: e in rows ==>
          e.currency == rows[0].currency && e.processorId == rows[0].processorId
          && e.merchantId == rows[0].merchantId)
    && rows[0].eventType.Authorization?
    && (forall i :: 0 < i < |rows| ==> !rows[i].eventType.Authorization?)
    && (|rows| > 1 ==> rows[1].eventType.Capture?)
    && CapturedMinor(rows) <= rows[0].amountMinor
    && RefundedMinor(rows) + ChargebackMinor(rows) <= CapturedMinor(rows)
  }

  lemma {:induction false} DistinctVersionsSpread(rows: seq<PaymentEvent>, i: nat, j: nat)
    requires ByVersion(rows) && DistinctBy(rows, Version)
    requires i <= j < |rows|
    ensures rows[j].transactionVersion - rows[i].transactionVersion >= j - i
    decreases j
  {
    if i < j {
      DistinctVersionsSpread(rows, i, j - 1);
      assert Version(rows[j - 1]) != Version(rows[j]);
    }
  }

  ghost predicate OneToN(rows: seq<PaymentEvent>) {
    forall i :: 0 <= i < |rows| ==> rows[i].transactionVersion == i + 1
  }

  /** Pigeonhole: n distinct versions with minimum 1 and maximum n are exactly 1..n, in order. */
  lemma VersionsAreExactlyOneToN(rows: seq<PaymentEvent>)
    requires rows != [] && ByVersion(rows)
    ensures |Image(rows, Version)| == |rows| && MinVersion(rows) == 1 && MaxVersion(rows) == |rows|
       <==> OneToN(rows)
  {
    ImageSize(rows, Version);
    var last := |rows| - 1;
    assert rows[0] in rows && rows[last] in rows;
    var low := Minimum(rows);
    var high := Maximum(rows);
    if DistinctBy(rows, Version) && MinVersion(rows) == 1 && MaxVersion(rows) == |rows| {
      forall i | 0 <= i < |rows| ensures rows[i].transactionVersion == i + 1 {
        DistinctVersionsSpread(rows, 0, i);
        DistinctVersionsSpread(rows, i, last);
      }
    }
    if OneToN(rows) {
      assert DistinctBy(rows, Version);
    }
  }

  lemma SingleAuthorization(rows: seq<PaymentEvent>)
    requires rows != [] && rows[0].eventType.Authorization?
    requires forall i :: 0 < i < |rows| ==> !rows[i].eventType.Authorization?
    ensures Filter(rows, IsAuthorization) == [rows[0]]
    ensures AuthorizedMinor(rows) == rows[0].amountMinor
  {
    assert forall e :: e in rows[1..] ==> !IsAuthorization(e);
    FilterNothing(rows[1..], IsAuthorization);
    SumSeqSingle(rows[0], Amount);
  }

  lemma OneParty(rows: seq<PaymentEvent>)
    requires rows != []
    ensures (|Image(rows, Currency)| == 1 && |Image(rows, Processor)| == 1 && |Image(rows, Merchant)| == 1)
       <==> forall e :: e in rows ==>
              e.currency == rows[0].currency && e.processorId == rows[0].processorId
              && e.merchantId == rows[0].merchantId
  {
    ImageConstant(rows, Currency);
    ImageConstant(rows, Processor);
    ImageConstant(rows, Merchant);
  }

  /** Order of the first capture and the first reversal relative to the authorization. */
  ghost predicate CausallyOrdered(rows: seq<PaymentEvent>, authorization: PaymentEvent) {
    var captures := Filter(rows, IsCapture);
    var reversals := Filter(rows, IsReversal);
    && (captures != [] ==> MinVersion(captures) > authorization.transactionVersion)
    && (reversals != [] ==> captures != [] && MinVersion(reversals) > MinVersion(captures))
  }

  /** The thirteen checks passed, regrouped. */
  ghost predicate PassesAll(rows: seq<PaymentEvent>)
    requires rows != []
  {
    var authorizations := Filter(rows, IsAuthorization);
    && |Image(rows, Version)| == |rows| && MinVersion(rows) == 1 && MaxVersion(rows) == |rows|
    && |Image(rows, Currency)| == 1 && |Image(rows, Processor)| == 1 && |Image(rows, Merchant)| == 1
    && |authorizations| == 1
    && CausallyOrdered(rows, authorizations[0])
    && CapturedMinor(rows) <= AuthorizedMinor(rows)
    && RefundedMinor(rows) + ChargebackMinor(rows) <= CapturedMinor(rows)
  }

  lemma AssessNone(rows: seq<PaymentEvent>)
    requires rows != []
    ensures Assess(rows).None? <==> PassesAll(rows)
  {
  }

  /** Forward half: an accepted history opens with its only authorization, then a capture. */
  lemma AcceptedHasShape(rows: seq<PaymentEvent>)
    requires rows != [] && ByVersion(rows) && Assess(rows).None?
    ensures AcceptedShape(rows)
  {
    AssessNone(rows);
    VersionsAreExactlyOneToN(rows);
    OneParty(rows);
    FirstIsAuthorization(rows);
    SecondIsCapture(rows);
    SingleAuthorization(rows);
  }

  lemma FirstIsAuthorization(rows: seq<PaymentEvent>)
    requires rows != [] && OneToN(rows)
    requires |Filter(rows, IsAuthorization)| == 1
    requires CausallyOrdered(rows, Filter(rows, IsAuthorization)[0])
    ensures rows[0].eventType.Authorization?
    ensures forall i :: 0 < i < |rows| ==> !rows[i].eventType.Authorization?
  {
    var first := rows[0];
    var authorization := Filter(rows, IsAuthorization)[0];
    assert authorization in rows && authorization.transactionVersion >= 1;
    var captures, reversals := Filter(rows, IsCapture), Filter(rows, IsReversal);
    if captures != [] { var c := Minimum(captures); }
    if reversals != [] { var r := Minimum(reversals); }
    assert IsCapture(first) ==> first in captures;
    assert IsReversal(first) ==> first in reversals;
    FilterPair(rows, IsAuthorization);
    assert forall i :: 0 < i < |rows| ==> !(IsAuthorization(rows[0]) && IsAuthorization(rows[i]));
  }

  lemma SecondIsCapture(rows: seq<PaymentEvent>)
    requires rows != [] && OneToN(rows)
    requires rows[0].eventType.Authorization?
    requires forall i :: 0 < i < |rows| ==> !rows[i].eventType.Authorization?
    requires CausallyOrdered(rows, rows[0])
    ensures |rows| > 1 ==> rows[1].eventType.Capture?
  {
    if |rows| > 1 {
      var second := rows[1];
      var captures, reversals := Filter(rows, IsCapture), Filter(rows, IsReversal);
      assert IsReversal(second) ==> second in reversals;
      if reversals != [] { var r := Minimum(reversals); }
      if captures != [] {
        var c := Minimum(captures);
        assert c in rows && IsCapture(c);
        assert c.transactionVersion >= 2;
      }
    }
  }

  /** Converse half: every history of that shape passes all thirteen checks. */
  lemma ShapeIsAccepted(rows: seq<PaymentEvent>)
    requires AcceptedShape(rows)
    ensures ByVersion(rows) && Assess(rows).None?
  {
    VersionsAreExactlyOneToN(rows);
    OneParty(rows);
    SingleAuthorization(rows);
    ShapeIsCausal(rows);
    AssessNone(rows);
  }

  lemma ShapeIsCausal(rows: seq<PaymentEvent>)
    requires AcceptedShape(rows)
    ensures CausallyOrdered(rows, rows[0])
  {
    var captures := Filter(rows, IsCapture);
    var reversals := Filter(rows, IsReversal);
    if captures != [] {
      var c := Minimum(captures);
      LaterThanFirst(rows, c);
    }
    if reversals != [] {
      var r := Minimum(reversals);
      LaterThanFirst(rows, r);
      assert rows[1] in captures;
    }
  }

  lemma LaterThanFirst(rows: seq<PaymentEvent>, e: PaymentEvent)
    requires AcceptedShape(rows) && e in rows && !e.eventType.Authorization?
    ensures |rows| > 1
    ensures e.transactionVersion >= (if IsReversal(e) then 3 else 2)
  {
    var k :| 0 <= k < |rows| && rows[k] == e;
    assert k != 0;
    assert k == 1 ==> IsCapture(e);
  }

  /** A history is accepted exactly when it follows the grammar. */
  lemma AcceptanceIsShape(rows: seq<PaymentEvent>)
    requires rows != [] && ByVersion(rows)
    ensures Assess(rows).None? <==> AcceptedShape(rows)
  {
    if Assess(rows).None? { AcceptedHasShape(rows); }
    if AcceptedShape(rows) { ShapeIsAccepted(rows); }
  }

  // ---- money over prefixes ----

  function AuthorizedPart(e: PaymentEvent): int { if IsAuthorization(e) then e.amountMinor else 0 }

  function CapturedPart(e: PaymentEvent): int { if IsCapture(e) then e.amountMinor else 0 }

  function RefundedPart(e: PaymentEvent): int { if IsRefund(e) then e.amountMinor else 0 }

  function ChargebackPart(e: PaymentEvent): int { if IsChargeback(e) then e.amountMinor else 0 }

  lemma TotalsAreParts(s: seq<PaymentEvent>)
    ensures AuthorizedMinor(s) == SumSeq(s, AuthorizedPart)
    ensures CapturedMinor(s) == SumSeq(s, CapturedPart)
    ensures RefundedMinor(s) == SumSeq(s, RefundedPart)
    ensures ChargebackMinor(s) == SumSeq(s, ChargebackPart)
  {
    SumSeqFilter(s, IsAuthorization, Amount, AuthorizedPart);
    SumSeqFilter(s, IsCapture, Amount, CapturedPart);
    SumSeqFilter(s, IsRefund, Amount, RefundedPart);
    SumSeqFilter(s, IsChargeback, Amount, ChargebackPart);
  }

  /** In version order, no prefix has captured more than was authorized. */
  lemma PrefixesStayAuthorized(rows: seq<PaymentEvent>, k: nat)
    requires rows != [] && ByVersion(rows) && Assess(rows).None?
    requires forall e :: e in rows ==> e.amountMinor > 0
    requires k <= |rows|
    ensures CapturedMinor(rows[..k]) <= AuthorizedMinor(rows[..k])
  {
    AcceptedHasShape(rows);
    if k > 0 {
      SingleAuthorization(rows[..k]);
      CapturedGrows(rows, k);
    }
  }

  lemma CapturedGrows(rows: seq<PaymentEvent>, k: nat)
    requires forall e :: e in rows ==> e.amountMinor > 0
    requires k <= |rows|
    ensures CapturedMinor(rows[..k]) <= CapturedMinor(rows)
  {
    assert rows == rows[..k] + rows[k..];
    SumSeqConcat(rows[..k], rows[k..], CapturedPart);
    SumSeqNonNegative(rows[k..], CapturedPart);
    TotalsAreParts(rows);
    TotalsAreParts(rows[..k]);
  }
}
