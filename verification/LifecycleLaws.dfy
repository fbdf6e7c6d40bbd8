/**
 The kernel's verdict in terms of single events: each reason for rejecting a history is something that its events show,
 the reason given is the first that is shown, and an accepted history's state is read off its events.
 */
module LifecycleLaws {
  import opened Wrappers
  import opened Sums
  import opened Contracts
  import opened Lifecycle

  ghost predicate Differ<U(!new)>(rows: seq<PaymentEvent>, f: PaymentEvent -> U) {
    exists a, b :: a in rows && b in rows && f(a) != f(b)
  }

  ghost predicate Has(rows: seq<PaymentEvent>, p: PaymentEvent -> bool) {
    exists e :: e in rows && p(e)
  }

  /** What the events show, whatever else is wrong with them. */
  ghost predicate Shows(rows: seq<PaymentEvent>, v: Violation) {
    match v
    case TransactionVersionConflict =>
      exists i, j :: 0 <= i < j < |rows| && rows[i].transactionVersion == rows[j].transactionVersion
    case TransactionVersionGap => exists k {:trigger HasVersion(rows, k)} :: 1 <= k <= |rows| && !HasVersion(rows, k)
    case CurrencyMutation => Differ(rows, Currency)
    case ProcessorMutation => Differ(rows, Processor)
    case MerchantMutation => Differ(rows, Merchant)
    case DuplicateAuthorization =>
      exists i, j :: 0 <= i < j < |rows| && rows[i].eventType == Authorization && rows[j].eventType == Authorization
    case CaptureWithoutAuthorization => !Has(rows, IsAuthorization) && Has(rows, IsCapture)
    case MissingAuthorization => !Has(rows, IsAuthorization)
    case CaptureBeforeAuthorization =>
      exists c, a :: c in rows && a in rows && c.eventType == Capture && a.eventType == Authorization
                     && c.transactionVersion <= a.transactionVersion
    case ReversalWithoutCapture => Has(rows, IsReversal) && !Has(rows, IsCapture)
    case ReversalBeforeCapture =>
      exists r :: r in rows && r.eventType in {Refund, Chargeback}
                  && forall c :: c in rows && c.eventType == Capture ==> r.transactionVersion <= c.transactionVersion
    case CaptureExceedsAuthorization => SumSeq(rows, CapturedPart) > SumSeq(rows, AuthorizedPart)
    case ReversalExceedsCapture =>
      SumSeq(rows, RefundedPart) + SumSeq(rows, ChargebackPart) > SumSeq(rows, CapturedPart)
  }

  ghost predicate HasVersion(rows: seq<PaymentEvent>, k: int) {
    exists e :: e in rows && e.transactionVersion == k
  }

  function Rank(v: Violation): nat {
    match v
    case TransactionVersionConflict => 0
    case TransactionVersionGap => 1
    case CurrencyMutation => 2
    case ProcessorMutation => 3
    case MerchantMutation => 4
    case DuplicateAuthorization => 5
    case CaptureWithoutAuthorization => 6
    case MissingAuthorization => 7
    case CaptureBeforeAuthorization => 8
    case ReversalWithoutCapture => 9
    case ReversalBeforeCapture => 10
    case CaptureExceedsAuthorization => 11
    case ReversalExceedsCapture => 12
  }

  ghost predicate FirstShown(rows: seq<PaymentEvent>, v: Violation) {
    Shows(rows, v) && forall earlier: Violation :: Rank(earlier) < Rank(v) ==> !Shows(rows, earlier)
  }

  // ---- versions ----

  function Range(n: nat): (r: set<int>)
    ensures forall k :: k in r <==> 1 <= k <= n
  {
    if n == 0 then {} else Range(n - 1) + {n}
  }

  lemma {:induction false} RangeSize(n: nat)
    ensures |Range(n)| == n
  {
    if n > 0 {
      RangeSize(n - 1);
    }
  }

  lemma SameSize(a: set<int>, b: set<int>)
    requires a <= b && |a| == |b|
    ensures a == b
  {
    assert |b - a| == |b| - |a|;
  }

  /** Among n distinct versions, 1..n are all present exactly if the extremes are 1 and n. */
  lemma GapShows(rows: seq<PaymentEvent>)
    requires rows != [] && DistinctBy(rows, Version)
    ensures MinVersion(rows) != 1 || MaxVersion(rows) != |rows| <==> Shows(rows, TransactionVersionGap)
  {
    var versions, range := Image(rows, Version), Range(|rows|);
    ImageSize(rows, Version);
    RangeSize(|rows|);
    var low := Minimum(rows);
    var high := Maximum(rows);
    assert forall k :: HasVersion(rows, k) <==> k in versions;
    if MinVersion(rows) == 1 && MaxVersion(rows) == |rows| {
      SameSize(versions, range);
      assert forall k :: 1 <= k <= |rows| ==> k in range;
    }
    if !Shows(rows, TransactionVersionGap) {
      assert forall k :: k in range ==> HasVersion(rows, k);
      SameSize(range, versions);
      assert Version(low) in versions && Version(high) in versions;
      assert 1 in range && |rows| in range;
    }
  }

  lemma ConflictShows(rows: seq<PaymentEvent>)
    ensures |Image(rows, Version)| != |rows| <==> Shows(rows, TransactionVersionConflict)
    ensures !Shows(rows, TransactionVersionConflict) <==> DistinctBy(rows, Version)
  {
    ImageSize(rows, Version);
    if !DistinctBy(rows, Version) {
      var i, j :| 0 <= i < j < |rows| && Version(rows[i]) == Version(rows[j]);
      assert rows[i].transactionVersion == rows[j].transactionVersion;
    }
    if i, j :| 0 <= i < j < |rows| && rows[i].transactionVersion == rows[j].transactionVersion {
      assert Version(rows[i]) == Version(rows[j]);
    }
  }

  // ---- party ----

  lemma MutationShows<U(!new)>(rows: seq<PaymentEvent>, f: PaymentEvent -> U)
    requires rows != []
    ensures |Image(rows, f)| != 1 <==> Differ(rows, f)
  {
    ImageConstant(rows, f);
    assert rows[0] in rows;
  }

  lemma MutationsShow(rows: seq<PaymentEvent>)
    requires rows != []
    ensures |Image(rows, Currency)| != 1 <==> Shows(rows, CurrencyMutation)
    ensures |Image(rows, Processor)| != 1 <==> Shows(rows, ProcessorMutation)
    ensures |Image(rows, Merchant)| != 1 <==> Shows(rows, MerchantMutation)
  {
    hide Image, Differ;
    MutationShows(rows, Currency);
    MutationShows(rows, Processor);
    MutationShows(rows, Merchant);
  }

  // ---- order of events ----

  lemma Selected(rows: seq<PaymentEvent>, p: PaymentEvent -> bool)
    ensures Filter(rows, p) == [] <==> !Has(rows, p)
  {
    if Filter(rows, p) != [] { assert Filter(rows, p)[0] in Filter(rows, p); }
  }

  lemma DuplicateShows(rows: seq<PaymentEvent>)
    ensures |Filter(rows, IsAuthorization)| > 1 <==> Shows(rows, DuplicateAuthorization)
  {
    FilterPair(rows, IsAuthorization);
    if i, j :| 0 <= i < j < |rows| && IsAuthorization(rows[i]) && IsAuthorization(rows[j]) {
      assert rows[i].eventType == Authorization && rows[j].eventType == Authorization;
    }
    if i, j :| 0 <= i < j < |rows| && rows[i].eventType == Authorization && rows[j].eventType == Authorization {
      assert IsAuthorization(rows[i]) && IsAuthorization(rows[j]);
    }
  }

  lemma CaptureOrderShows(rows: seq<PaymentEvent>)
    requires |Filter(rows, IsAuthorization)| == 1
    ensures var captures := Filter(rows, IsCapture);
      captures != [] && MinVersion(captures) <= Filter(rows, IsAuthorization)[0].transactionVersion
      <==> Shows(rows, CaptureBeforeAuthorization)
  {
    var captures, authorizations := Filter(rows, IsCapture), Filter(rows, IsAuthorization);
    assert authorizations == [authorizations[0]] && authorizations[0] in authorizations;
    if captures != [] { var first := Minimum(captures); }
    forall a | a in rows && a.eventType == Authorization ensures a == authorizations[0] {
      assert a in authorizations;
    }
    forall c | c in rows && c.eventType == Capture ensures c in captures {}
  }

  lemma ReversalOrderShows(rows: seq<PaymentEvent>)
    requires Filter(rows, IsCapture) != []
    ensures var captures, reversals := Filter(rows, IsCapture), Filter(rows, IsReversal);
      reversals != [] && MinVersion(reversals) <= MinVersion(captures) <==> Shows(rows, ReversalBeforeCapture)
  {
    var captures, reversals := Filter(rows, IsCapture), Filter(rows, IsReversal);
    var c := Minimum(captures);
    if reversals != [] { var r := Minimum(reversals); }
    forall e | e in rows
      ensures (IsCapture(e) <==> e.eventType == Capture) && (IsReversal(e) <==> e.eventType in {Refund, Chargeback}) {}
    if Shows(rows, ReversalBeforeCapture) {
      var r :| r in rows && r.eventType in {Refund, Chargeback}
        && forall e :: e in rows && e.eventType == Capture ==> r.transactionVersion <= e.transactionVersion;
      assert r in reversals && r.transactionVersion <= c.transactionVersion;
    }
  }

  // ---- the verdict ----

  /** Each check of the kernel, given that the earlier ones passed, is what the events show. */
  ghost predicate ChecksShow(rows: seq<PaymentEvent>)
    requires rows != []
  {
    var authorizations := Filter(rows, IsAuthorization);
    var captures, reversals := Filter(rows, IsCapture), Filter(rows, IsReversal);
    && (|Image(rows, Version)| != |rows| <==> Shows(rows, TransactionVersionConflict))
    && (!Shows(rows, TransactionVersionConflict) ==>
          (MinVersion(rows) != 1 || MaxVersion(rows) != |rows| <==> Shows(rows, TransactionVersionGap)))
    && (|Image(rows, Currency)| != 1 <==> Shows(rows, CurrencyMutation))
    && (|Image(rows, Processor)| != 1 <==> Shows(rows, ProcessorMutation))
    && (|Image(rows, Merchant)| != 1 <==> Shows(rows, MerchantMutation))
    && (|authorizations| > 1 <==> Shows(rows, DuplicateAuthorization))
    && (authorizations == [] && captures != [] <==> Shows(rows, CaptureWithoutAuthorization))
    && (authorizations == [] <==> Shows(rows, MissingAuthorization))
    && (|authorizations| == 1 ==>
          (captures != [] && MinVersion(captures) <= authorizations[0].transactionVersion
           <==> Shows(rows, CaptureBeforeAuthorization)))
    && (reversals != [] && captures == [] <==> Shows(rows, ReversalWithoutCapture))
    && (captures != [] ==>
          (reversals != [] && MinVersion(reversals) <= MinVersion(captures) <==> Shows(rows, ReversalBeforeCapture)))
    && (captures == [] && reversals == [] ==> !Shows(rows, ReversalBeforeCapture))
    && (CapturedMinor(rows) > AuthorizedMinor(rows) <==> Shows(rows, CaptureExceedsAuthorization))
    && (RefundedMinor(rows) + ChargebackMinor(rows) > CapturedMinor(rows) <==> Shows(rows, ReversalExceedsCapture))
  }

  lemma TotalsShow(rows: seq<PaymentEvent>)
    ensures CapturedMinor(rows) > AuthorizedMinor(rows) <==> Shows(rows, CaptureExceedsAuthorization)
    ensures RefundedMinor(rows) + ChargebackMinor(rows) > CapturedMinor(rows) <==> Shows(rows, ReversalExceedsCapture)
  {
    hide AuthorizedMinor, CapturedMinor, RefundedMinor, ChargebackMinor, SumSeq;
    TotalsAreParts(rows);
  }

  lemma PresenceShows(rows: seq<PaymentEvent>)
    ensures var authorizations := Filter(rows, IsAuthorization);
      var captures, reversals := Filter(rows, IsCapture), Filter(rows, IsReversal);
      && (authorizations == [] && captures != [] <==> Shows(rows, CaptureWithoutAuthorization))
      && (authorizations == [] <==> Shows(rows, MissingAuthorization))
      && (reversals != [] && captures == [] <==> Shows(rows, ReversalWithoutCapture))
      && (reversals == [] ==> !Shows(rows, ReversalBeforeCapture))
  {
    hide Has, Filter;
    Selected(rows, IsAuthorization);
    Selected(rows, IsCapture);
    Selected(rows, IsReversal);
    if r :| r in rows && r.eventType in {Refund, Chargeback} { assert r in Filter(rows, IsReversal); }
  }

  lemma ChecksAreShown(rows: seq<PaymentEvent>)
    requires rows != []
    ensures ChecksShow(rows)
  {
    hide AuthorizedMinor, CapturedMinor, RefundedMinor, ChargebackMinor, SumSeq, Image, Filter, MinVersion, MaxVersion;
    hide Shows, DistinctBy;
    ConflictShows(rows);
    if !Shows(rows, TransactionVersionConflict) { GapShows(rows); }
    MutationsShow(rows);
    DuplicateShows(rows);
    PresenceShows(rows);
    if |Filter(rows, IsAuthorization)| == 1 { CaptureOrderShows(rows); }
    if Filter(rows, IsCapture) != [] { ReversalOrderShows(rows); }
    TotalsShow(rows);
  }

  /** A history is rejected for exactly the first reason that its events show, and accepted if they show none. */
  lemma VerdictIsFirstShown(rows: seq<PaymentEvent>, v: Violation)
    requires rows != []
    ensures Assess(rows) == Some(v) <==> FirstShown(rows, v)
    ensures Assess(rows) == None <==> forall u: Violation :: !Shows(rows, u)
  {
    hide Assess, Shows;
    ChecksAreShown(rows);
    if Assess(rows).Some? { VerdictIsShown(rows); }
    NoneIsShown(rows);
    if FirstShown(rows, v) && Assess(rows).Some? {
      var u := Assess(rows).value;
      assert !(Rank(u) < Rank(v)) && !(Rank(v) < Rank(u));
      RankIdentifies(u, v);
    }
  }

  lemma RankIdentifies(u: Violation, v: Violation)
    requires Rank(u) == Rank(v)
    ensures u == v
  {
  }

  lemma VerdictIsShown(rows: seq<PaymentEvent>)
    requires rows != [] && Assess(rows).Some? && ChecksShow(rows)
    ensures FirstShown(rows, Assess(rows).value)
  {
    hide AuthorizedMinor, CapturedMinor, RefundedMinor, ChargebackMinor, Image, Filter, MinVersion, MaxVersion, Shows;
  }

  lemma AllViolations(u: Violation)
    ensures || u == TransactionVersionConflict || u == TransactionVersionGap || u == CurrencyMutation
            || u == ProcessorMutation || u == MerchantMutation || u == DuplicateAuthorization
            || u == CaptureWithoutAuthorization || u == MissingAuthorization || u == CaptureBeforeAuthorization
            || u == ReversalWithoutCapture || u == ReversalBeforeCapture || u == CaptureExceedsAuthorization
            || u == ReversalExceedsCapture
  {
  }

  lemma NoneIsShown(rows: seq<PaymentEvent>)
    requires rows != [] && ChecksShow(rows)
    ensures Assess(rows) == None <==> forall u: Violation :: !Shows(rows, u)
  {
    hide AuthorizedMinor, CapturedMinor, RefundedMinor, ChargebackMinor, Image, Filter, MinVersion, MaxVersion, Shows;
    if Assess(rows) == None {
      assert !Shows(rows, TransactionVersionConflict) && !Shows(rows, TransactionVersionGap);
      assert !Shows(rows, CurrencyMutation) && !Shows(rows, ProcessorMutation) && !Shows(rows, MerchantMutation);
      assert !Shows(rows, DuplicateAuthorization) && !Shows(rows, MissingAuthorization);
      assert !Shows(rows, CaptureWithoutAuthorization) && !Shows(rows, CaptureBeforeAuthorization);
      assert !Shows(rows, ReversalWithoutCapture) && !Shows(rows, ReversalBeforeCapture);
      assert !Shows(rows, CaptureExceedsAuthorization) && !Shows(rows, ReversalExceedsCapture);
      forall u: Violation ensures !Shows(rows, u) { AllViolations(u); }
    }
  }

  // ---- the state of an accepted history ----

  /** Which status the totals of an accepted history call for. */
  ghost predicate Calls(status: Status, authorized: int, captured: int, refunded: int, chargedBack: int) {
    match status
    case Authorized => captured == 0
    case PartiallyCaptured => 0 < captured < authorized && refunded == 0 && chargedBack == 0
    case Captured => 0 < captured == authorized && refunded == 0 && chargedBack == 0
    case PartiallyRefunded => 0 < refunded < captured && chargedBack == 0
    case Refunded => 0 < refunded == captured && chargedBack == 0
    case PartiallyChargedBack => 0 < chargedBack && refunded + chargedBack < captured
    case ChargedBack => 0 < chargedBack && refunded + chargedBack == captured
  }

  lemma StatusIsExact(authorized: int, captured: int, refunded: int, chargedBack: int, status: Status)
    requires 0 <= captured <= authorized && 0 < authorized && 0 <= refunded && 0 <= chargedBack
    requires refunded + chargedBack <= captured
    ensures StatusOf(authorized, captured, refunded, chargedBack) == status
       <==> Calls(status, authorized, captured, refunded, chargedBack)
  {
  }

  /** An accepted history's state: its latest event, everyone's party, its only authorization and its totals. */
  lemma StateIsExact(rows: seq<PaymentEvent>)
    requires rows != [] && ByVersion(rows) && Assess(rows) == None
    requires forall e :: e in rows ==> e.amountMinor > 0
    ensures var s := StateOf(rows);
      && (exists last :: last in rows && s.currentEventId == last.eventId && s.currentVersion == last.transactionVersion
                         && s.transactionId == last.transactionId
                         && forall e :: e in rows ==> e.transactionVersion <= last.transactionVersion)
      && (forall e :: e in rows ==>
            e.currency == s.currency && e.processorId == s.processorId && e.merchantId == s.merchantId)
      && (forall e :: e in rows && e.eventType == Authorization ==> e.amountMinor == s.authorizedMinor)
      && s.capturedMinor == SumSeq(rows, CapturedPart)
      && s.refundedMinor == SumSeq(rows, RefundedPart)
      && s.chargebackMinor == SumSeq(rows, ChargebackPart)
      && Calls(s.status, s.authorizedMinor, s.capturedMinor, s.refundedMinor, s.chargebackMinor)
  {
    hide Assess, StatusOf, AuthorizedMinor, CapturedMinor, RefundedMinor, ChargebackMinor, SumSeq, Calls;
    AcceptedHasShape(rows);
    SingleAuthorization(rows);
    TotalsAreParts(rows);
    var last := rows[|rows| - 1];
    assert last in rows && rows[0] in rows;
    forall e | e in rows && e.eventType == Authorization ensures e == rows[0] {
      var i :| 0 <= i < |rows| && rows[i] == e;
    }
    NonNegative(rows);
    var s := StateOf(rows);
    StatusIsExact(s.authorizedMinor, s.capturedMinor, s.refundedMinor, s.chargebackMinor, s.status);
  }

  lemma NonNegative(rows: seq<PaymentEvent>)
    requires forall e :: e in rows ==> e.amountMinor > 0
    ensures SumSeq(rows, CapturedPart) >= 0 && SumSeq(rows, RefundedPart) >= 0 && SumSeq(rows, ChargebackPart) >= 0
  {
    SumSeqNonNegative(rows, CapturedPart);
    SumSeqNonNegative(rows, RefundedPart);
    SumSeqNonNegative(rows, ChargebackPart);
  }
}
