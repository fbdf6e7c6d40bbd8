/**
 Windowed reconstruction: the same verdict and the same state row as the sequential kernel, computed
 from window aggregates over rows that arrive in any order.  Absent aggregates are nulls, and a
 condition on a null does not hold.
 */
module Reconstruction {
  import opened Wrappers
  import opened Sums
  import opened Ordering
  import opened Contracts
  import opened Lifecycle

  datatype WindowException = WindowException(
    event: PaymentEvent,
    authorizedMinor: Option<int>,
    capturedMinor: int,
    refundedMinor: int,
    chargebackMinor: int,
    businessError: Violation
  )

  datatype Reconstructed = Reconstructed(
    current: map<string, PaymentState>,
    exceptions: map<string, WindowException>
  )

  // ---- window aggregates ----

  function InTransaction(transactionId: string): PaymentEvent -> bool {
    (e: PaymentEvent) => e.transactionId == transactionId
  }

  function Partition(frame: seq<PaymentEvent>, transactionId: string): seq<PaymentEvent> {
    Filter(frame, InTransaction(transactionId))
  }

  function HasVersion(version: int): PaymentEvent -> bool {
    (e: PaymentEvent) => e.transactionVersion == version
  }

  function VersionCount(window: seq<PaymentEvent>, version: int): nat {
    |Filter(window, HasVersion(version))|
  }

  /** The largest version_count among some rows of a window. */
  function LargestVersionCount(window: seq<PaymentEvent>, some: seq<PaymentEvent>): nat {
    if some == [] then 0
    else
      var rest := LargestVersionCount(window, some[1..]);
      var own := VersionCount(window, some[0].transactionVersion);
      if own > rest then own else rest
  }

  function AuthorizationFlag(e: PaymentEvent): int {
    if IsAuthorization(e) then 1 else 0
  }

  /** min(when p then transaction_version): null when no row qualifies. */
  function MinVersionWhere(window: seq<PaymentEvent>, p: PaymentEvent -> bool): Option<int> {
    if window == [] then None
    else
      var rest := MinVersionWhere(window[1..], p);
      if p(window[0]) && (rest.None? || window[0].transactionVersion < rest.value)
      then Some(window[0].transactionVersion) else rest
  }

  /** max(when p then amount_minor): null when no row qualifies. */
  function MaxAmountWhere(window: seq<PaymentEvent>, p: PaymentEvent -> bool): Option<int> {
    if window == [] then None
    else
      var rest := MaxAmountWhere(window[1..], p);
      if p(window[0]) && (rest.None? || window[0].amountMinor > rest.value)
      then Some(window[0].amountMinor) else rest
  }

  predicate Later(a: PaymentEvent, b: PaymentEvent) {
    a.transactionVersion > b.transactionVersion
    || (a.transactionVersion == b.transactionVersion && a.eventId != b.eventId && StringLe(b.eventId, a.eventId))
  }

  /** The row ranked first by version and then event id, both descending. */
  function LatestOf(window: seq<PaymentEvent>): PaymentEvent
    requires window != []
  {
    if |window| == 1 then window[0]
    else
      var rest := LatestOf(window[1..]);
      if Later(window[0], rest) then window[0] else rest
  }

  function BusinessError(window: seq<PaymentEvent>): Option<Violation>
    requires window != []
  {
    var authorizationCount := SumSeq(window, AuthorizationFlag);
    var authorized := MaxAmountWhere(window, IsAuthorization);
    var captured := SumSeq(window, CapturedPart);
    var authorizationVersion := MinVersionWhere(window, IsAuthorization);
    var captureVersion := MinVersionWhere(window, IsCapture);
    var reversalVersion := MinVersionWhere(window, IsReversal);
    if LargestVersionCount(window, window) > 1 then Some(TransactionVersionConflict)
    else if MinVersion(window) != 1 || MaxVersion(window) != |window| then Some(TransactionVersionGap)
    else if |Image(window, Currency)| > 1 then Some(CurrencyMutation)
    else if |Image(window, Processor)| > 1 then Some(ProcessorMutation)
    else if |Image(window, Merchant)| > 1 then Some(MerchantMutation)
    else if authorizationCount > 1 then Some(DuplicateAuthorization)
    else if authorizationCount == 0 && captured > 0 then Some(CaptureWithoutAuthorization)
    else if authorizationCount == 0 then Some(MissingAuthorization)
    else if captureVersion.Some? && authorizationVersion.Some? && captureVersion.value <= authorizationVersion.value then
      Some(CaptureBeforeAuthorization)
    else if reversalVersion.Some? && captureVersion.None? then Some(ReversalWithoutCapture)
    else if reversalVersion.Some? && captureVersion.Some? && reversalVersion.value <= captureVersion.value then
      Some(ReversalBeforeCapture)
    else if authorized.Some? && captured > authorized.value then Some(CaptureExceedsAuthorization)
    else if SumSeq(window, RefundedPart) + SumSeq(window, ChargebackPart) > captured then Some(ReversalExceedsCapture)
    else None
  }

  function WindowStatus(authorized: Option<int>, captured: int, refunded: int, chargedBack: int): Status {
    if captured > 0 && refunded + chargedBack == captured && chargedBack > 0 then ChargedBack
    else if chargedBack > 0 then PartiallyChargedBack
    else if captured > 0 && refunded == captured then Refunded
    else if refunded > 0 then PartiallyRefunded
    else if authorized.Some? && captured == authorized.value then Captured
    else if captured > 0 then PartiallyCaptured
    else Authorized
  }

  /** The state row of a window; its authorized amount is null only if no authorization exists. */
  function CurrentRow(window: seq<PaymentEvent>): PaymentState
    requires window != []
  {
    var latest := LatestOf(window);
    var authorized := MaxAmountWhere(window, IsAuthorization);
    var captured := SumSeq(window, CapturedPart);
    var refunded := SumSeq(window, RefundedPart);
    var chargedBack := SumSeq(window, ChargebackPart);
    PaymentState(
      latest.transactionId, latest.transactionVersion, latest.eventId,
      WindowStatus(authorized, captured, refunded, chargedBack),
      authorized.GetOr(0), captured, refunded, chargedBack,
      latest.currency, latest.processorId, latest.merchantId)
  }

  function ExceptionOf(window: seq<PaymentEvent>, e: PaymentEvent, error: Violation): WindowException {
    WindowException(e, MaxAmountWhere(window, IsAuthorization), SumSeq(window, CapturedPart),
                    SumSeq(window, RefundedPart), SumSeq(window, ChargebackPart), error)
  }

  function FrameTransactions(frame: seq<PaymentEvent>): set<string> {
    set e | e in frame :: e.transactionId
  }

  lemma PartitionNonEmpty(frame: seq<PaymentEvent>, transactionId: string)
    ensures transactionId in FrameTransactions(frame) <==> Partition(frame, transactionId) != []
  {
    if transactionId in FrameTransactions(frame) {
      var e :| e in frame && e.transactionId == transactionId;
      assert e in Partition(frame, transactionId);
    }
    if Partition(frame, transactionId) != [] {
      assert Partition(frame, transactionId)[0] in frame;
    }
  }

  function ErrorAt(frame: seq<PaymentEvent>, transactionId: string): Option<Violation> {
    var window := Partition(frame, transactionId);
    if window == [] then None else BusinessError(window)
  }

  ghost predicate IdsUnique(frame: seq<PaymentEvent>) {
    forall a, b :: a in frame && b in frame && a.eventId == b.eventId ==> a == b
  }

  /** Rejects an invalid transaction as a unit, then projects only valid history. */
  function Reconstruct(frame: seq<PaymentEvent>): Reconstructed
    requires IdsUnique(frame)
  {
    hide Partition, BusinessError, ExceptionOf, CurrentRow;
    Reconstructed(
      map id | id in FrameTransactions(frame) && ErrorAt(frame, id).None? ::
        (PartitionNonEmpty(frame, id); CurrentRow(Partition(frame, id))),
      map e | e in frame && ErrorAt(frame, e.transactionId).Some? ::
        e.eventId := ExceptionOf(Partition(frame, e.transactionId), e, ErrorAt(frame, e.transactionId).value))
  }

  // ---- aggregates do not depend on row order ----

  lemma SameImage<U>(window: seq<PaymentEvent>, rows: seq<PaymentEvent>, all: set<PaymentEvent>, f: PaymentEvent -> U)
    requires Listing(window, all) && Listing(rows, all)
    ensures Image(window, f) == Image(rows, f)
  {
    assert forall x :: x in window <==> x in rows;
  }

  lemma SameExtremes(window: seq<PaymentEvent>, rows: seq<PaymentEvent>, all: set<PaymentEvent>)
    requires Listing(window, all) && Listing(rows, all) && rows != []
    ensures window != [] && |window| == |rows|
    ensures MinVersion(window) == MinVersion(rows) && MaxVersion(window) == MaxVersion(rows)
  {
    ListingLength(window, all);
    ListingLength(rows, all);
    var a := Minimum(window);
    var b := Minimum(rows);
    var c := Maximum(window);
    var d := Maximum(rows);
  }

  lemma {:induction false} LargestVersionCountAbove(window: seq<PaymentEvent>, some: seq<PaymentEvent>)
    ensures LargestVersionCount(window, some) > 1
       <==> exists e :: e in some && VersionCount(window, e.transactionVersion) > 1
  {
    if some != [] {
      LargestVersionCountAbove(window, some[1..]);
      assert forall e :: e in some <==> e == some[0] || e in some[1..];
    }
  }

  /** A version is counted twice exactly when the versions are not pairwise distinct. */
  lemma VersionConflictIsRepetition(window: seq<PaymentEvent>)
    ensures LargestVersionCount(window, window) > 1 <==> |Image(window, Version)| != |window|
  {
    LargestVersionCountAbove(window, window);
    ImageSize(window, Version);
    if e :| e in window && VersionCount(window, e.transactionVersion) > 1 {
      FilterPair(window, HasVersion(e.transactionVersion));
      var i, j :| 0 <= i < j < |window| && HasVersion(e.transactionVersion)(window[i])
        && HasVersion(e.transactionVersion)(window[j]);
      assert Version(window[i]) == Version(window[j]);
    }
    if !DistinctBy(window, Version) {
      var i, j :| 0 <= i < j < |window| && Version(window[i]) == Version(window[j]);
      var version := window[i].transactionVersion;
      FilterPair(window, HasVersion(version));
      assert HasVersion(version)(window[i]) && HasVersion(version)(window[j]);
      assert window[i] in window;
    }
  }

  lemma {:induction false} MinVersionWhereIs(window: seq<PaymentEvent>, p: PaymentEvent -> bool)
    ensures MinVersionWhere(window, p).None? <==> forall e :: e in window ==> !p(e)
    ensures MinVersionWhere(window, p).Some? ==>
              && (exists e :: e in window && p(e) && e.transactionVersion == MinVersionWhere(window, p).value)
              && (forall e :: e in window && p(e) ==> MinVersionWhere(window, p).value <= e.transactionVersion)
  {
    if window != [] {
      MinVersionWhereIs(window[1..], p);
      assert forall e :: e in window <==> e == window[0] || e in window[1..];
    }
  }

  /** A null-or-minimum window aggregate is the minimum over the kernel's selected list. */
  lemma MinVersionAgrees(window: seq<PaymentEvent>, rows: seq<PaymentEvent>, all: set<PaymentEvent>, p: PaymentEvent -> bool)
    requires Listing(window, all) && Listing(rows, all)
    ensures MinVersionWhere(window, p).None? <==> Filter(rows, p) == []
    ensures Filter(rows, p) != [] ==> MinVersionWhere(window, p) == Some(MinVersion(Filter(rows, p)))
  {
    MinVersionWhereIs(window, p);
    var selected := Filter(rows, p);
    if selected != [] {
      var least := Minimum(selected);
      assert least in window && p(least);
      var e :| e in window && p(e) && e.transactionVersion == MinVersionWhere(window, p).value;
      assert e in selected;
    } else {
      forall e | e in window ensures !p(e) {
        assert e in rows && e !in selected;
      }
    }
  }

  lemma {:induction false} MaxAmountWhereIs(window: seq<PaymentEvent>, p: PaymentEvent -> bool)
    ensures MaxAmountWhere(window, p).None? <==> forall e :: e in window ==> !p(e)
    ensures MaxAmountWhere(window, p).Some? ==>
              && (exists e :: e in window && p(e) && e.amountMinor == MaxAmountWhere(window, p).value)
              && (forall e :: e in window && p(e) ==> e.amountMinor <= MaxAmountWhere(window, p).value)
  {
    if window != [] {
      MaxAmountWhereIs(window[1..], p);
      assert forall e :: e in window <==> e == window[0] || e in window[1..];
    }
  }

  /** With one authorization, its window maximum is the kernel's sum. */
  lemma AuthorizedAgrees(window: seq<PaymentEvent>, rows: seq<PaymentEvent>, all: set<PaymentEvent>)
    requires Listing(window, all) && Listing(rows, all)
    requires |Filter(rows, IsAuthorization)| == 1
    ensures MaxAmountWhere(window, IsAuthorization) == Some(AuthorizedMinor(rows))
    ensures MinVersionWhere(window, IsAuthorization) == Some(Filter(rows, IsAuthorization)[0].transactionVersion)
  {
    var selected := Filter(rows, IsAuthorization);
    assert selected == [selected[0]] && selected[0] in selected;
    SumSeqSingle(selected[0], Amount);
    MaxAmountWhereIs(window, IsAuthorization);
    assert selected[0] in window && IsAuthorization(selected[0]);
    var e :| e in window && IsAuthorization(e) && e.amountMinor == MaxAmountWhere(window, IsAuthorization).value;
    assert e in selected;
    MinVersionAgrees(window, rows, all, IsAuthorization);
    assert MinVersion(selected) == selected[0].transactionVersion;
  }

  lemma {:induction false} FlagsCount(rows: seq<PaymentEvent>)
    ensures SumSeq(rows, AuthorizationFlag) == |Filter(rows, IsAuthorization)|
  {
    if rows != [] { FlagsCount(rows[1..]); }
  }

  lemma SumsAgree(window: seq<PaymentEvent>, rows: seq<PaymentEvent>, all: set<PaymentEvent>)
    requires Listing(window, all) && Listing(rows, all)
    ensures SumSeq(window, AuthorizationFlag) == |Filter(rows, IsAuthorization)|
    ensures SumSeq(window, CapturedPart) == CapturedMinor(rows)
    ensures SumSeq(window, RefundedPart) == RefundedMinor(rows)
    ensures SumSeq(window, ChargebackPart) == ChargebackMinor(rows)
  {
    ListingsAgree(window, rows, all, AuthorizationFlag);
    ListingsAgree(window, rows, all, CapturedPart);
    ListingsAgree(window, rows, all, RefundedPart);
    ListingsAgree(window, rows, all, ChargebackPart);
    FlagsCount(rows);
    TotalsAreParts(rows);
  }

  lemma CapturedPositive(rows: seq<PaymentEvent>)
    requires forall e :: e in rows ==> e.amountMinor > 0
    ensures CapturedMinor(rows) > 0 <==> Filter(rows, IsCapture) != []
  {
    var captures := Filter(rows, IsCapture);
    if captures != [] {
      SumSeqPositive(captures, Amount);
    }
  }

  lemma ImageNonEmpty<U>(rows: seq<PaymentEvent>, f: PaymentEvent -> U)
    requires rows != []
    ensures |Image(rows, f)| >= 1
  {
    assert f(rows[0]) in Image(rows, f) by { assert rows[0] in rows; }
  }

  /** Every quantity the windowed cascade reads, in the kernel's terms. */
  ghost predicate WindowFacts(window: seq<PaymentEvent>, rows: seq<PaymentEvent>)
    requires window != [] && rows != []
  {
    var captures, reversals := Filter(rows, IsCapture), Filter(rows, IsReversal);
    && |window| == |rows|
    && (LargestVersionCount(window, window) > 1 <==> |Image(rows, Version)| != |rows|)
    && MinVersion(window) == MinVersion(rows) && MaxVersion(window) == MaxVersion(rows)
    && (|Image(window, Currency)| > 1 <==> |Image(rows, Currency)| != 1)
    && (|Image(window, Processor)| > 1 <==> |Image(rows, Processor)| != 1)
    && (|Image(window, Merchant)| > 1 <==> |Image(rows, Merchant)| != 1)
    && SumSeq(window, AuthorizationFlag) == |Filter(rows, IsAuthorization)|
    && SumSeq(window, CapturedPart) == CapturedMinor(rows)
    && SumSeq(window, RefundedPart) == RefundedMinor(rows)
    && SumSeq(window, ChargebackPart) == ChargebackMinor(rows)
    && (CapturedMinor(rows) > 0 <==> captures != [])
    && MinVersionWhere(window, IsCapture) == (if captures == [] then None else Some(MinVersion(captures)))
    && MinVersionWhere(window, IsReversal) == (if reversals == [] then None else Some(MinVersion(reversals)))
    && (|Filter(rows, IsAuthorization)| == 1 ==>
          && MaxAmountWhere(window, IsAuthorization) == Some(AuthorizedMinor(rows))
          && MinVersionWhere(window, IsAuthorization) == Some(Filter(rows, IsAuthorization)[0].transactionVersion))
  }

  lemma WindowFactsHold(window: seq<PaymentEvent>, rows: seq<PaymentEvent>, all: set<PaymentEvent>)
    requires Listing(window, all) && Listing(rows, all) && rows != []
    requires forall e :: e in rows ==> e.amountMinor > 0
    ensures window != [] && WindowFacts(window, rows)
  {
    hide LargestVersionCount, MinVersionWhere, MaxAmountWhere, AuthorizationFlag, CapturedPart, RefundedPart, ChargebackPart;
    hide MinVersion, MaxVersion, Image, Listing, Filter;
    hide CapturedMinor, RefundedMinor, ChargebackMinor, AuthorizedMinor;
    SameExtremes(window, rows, all);
    VersionConflictIsRepetition(window);
    SameImage(window, rows, all, Version);
    SameImage(window, rows, all, Currency);
    SameImage(window, rows, all, Processor);
    SameImage(window, rows, all, Merchant);
    ImageNonEmpty(rows, Currency);
    ImageNonEmpty(rows, Processor);
    ImageNonEmpty(rows, Merchant);
    SumsAgree(window, rows, all);
    CapturedPositive(rows);
    MinVersionAgrees(window, rows, all, IsCapture);
    MinVersionAgrees(window, rows, all, IsReversal);
    if |Filter(rows, IsAuthorization)| == 1 {
      AuthorizedAgrees(window, rows, all);
    }
  }

  lemma CascadeAgrees(window: seq<PaymentEvent>, rows: seq<PaymentEvent>)
    requires window != [] && rows != [] && WindowFacts(window, rows)
    ensures BusinessError(window) == Assess(rows)
  {
    hide LargestVersionCount, MinVersionWhere, MaxAmountWhere, AuthorizationFlag, CapturedPart, RefundedPart, ChargebackPart;
    hide MinVersion, MaxVersion, Image, Filter;
    hide CapturedMinor, RefundedMinor, ChargebackMinor, AuthorizedMinor, SumSeq;
  }

  // ---- the exception row ----

  /** Null without an authorization, and otherwise the largest authorized amount. */
  ghost predicate LargestAuthorized(authorized: Option<int>, rows: seq<PaymentEvent>) {
    match authorized
    case None => forall e :: e in rows ==> !IsAuthorization(e)
    case Some(amount) =>
      && (exists e :: e in rows && IsAuthorization(e) && e.amountMinor == amount)
      && forall e :: e in rows && IsAuthorization(e) ==> e.amountMinor <= amount
  }

  /** The row holds its event, the kernel's reason for rejecting the history and the history's totals. */
  ghost predicate Explains(row: WindowException, rows: seq<PaymentEvent>, e: PaymentEvent)
    requires rows != []
  {
    && row.event == e
    && Assess(rows) == Some(row.businessError)
    && LargestAuthorized(row.authorizedMinor, rows)
    && row.capturedMinor == CapturedMinor(rows)
    && row.refundedMinor == RefundedMinor(rows)
    && row.chargebackMinor == ChargebackMinor(rows)
  }

  lemma ExceptionAgrees(window: seq<PaymentEvent>, rows: seq<PaymentEvent>, all: set<PaymentEvent>, e: PaymentEvent, error: Violation)
    requires Listing(window, all) && Listing(rows, all) && rows != []
    requires Assess(rows) == Some(error)
    ensures Explains(ExceptionOf(window, e, error), rows, e)
  {
    hide Assess, CapturedMinor, RefundedMinor, ChargebackMinor, SumSeq, MaxAmountWhere;
    SumsAgree(window, rows, all);
    MaxAmountWhereIs(window, IsAuthorization);
    assert forall x :: x in window <==> x in rows;
  }

  // ---- the state row ----

  lemma {:induction false} LatestIs(window: seq<PaymentEvent>)
    requires window != []
    ensures LatestOf(window) in window
    ensures forall e :: e in window ==> e.transactionVersion <= LatestOf(window).transactionVersion
  {
    if |window| > 1 {
      LatestIs(window[1..]);
      assert forall e :: e in window <==> e == window[0] || e in window[1..];
    }
  }

  /** Of an accepted history, the windowed latest row is the kernel's last row. */
  lemma LatestAgrees(window: seq<PaymentEvent>, rows: seq<PaymentEvent>, all: set<PaymentEvent>)
    requires Listing(window, all) && Listing(rows, all) && window != [] && AcceptedShape(rows)
    ensures LatestOf(window) == rows[|rows| - 1]
  {
    LatestIs(window);
    assert LatestOf(window) in rows;
    var k :| 0 <= k < |rows| && rows[k] == LatestOf(window);
    assert rows[|rows| - 1] in rows;
    assert rows[|rows| - 1] in window;
  }

  /** The two status decisions agree on accepted totals, although their cases are ordered differently. */
  lemma StatusAgrees(authorized: int, captured: int, refunded: int, chargedBack: int)
    requires authorized > 0 && captured >= 0 && refunded >= 0 && chargedBack >= 0
    requires refunded + chargedBack <= captured
    ensures WindowStatus(Some(authorized), captured, refunded, chargedBack)
         == StatusOf(authorized, captured, refunded, chargedBack)
  {
  }

  lemma TotalsNonNegative(rows: seq<PaymentEvent>)
    requires forall e :: e in rows ==> e.amountMinor > 0
    ensures CapturedMinor(rows) >= 0 && RefundedMinor(rows) >= 0 && ChargebackMinor(rows) >= 0
  {
    SumSeqNonNegative(Filter(rows, IsCapture), Amount);
    SumSeqNonNegative(Filter(rows, IsRefund), Amount);
    SumSeqNonNegative(Filter(rows, IsChargeback), Amount);
  }

  lemma RowAgrees(window: seq<PaymentEvent>, rows: seq<PaymentEvent>, all: set<PaymentEvent>)
    requires Listing(window, all) && Listing(rows, all) && window != []
    requires AcceptedShape(rows) && WindowFacts(window, rows)
    requires forall e :: e in rows ==> e.amountMinor > 0
    ensures CurrentRow(window) == StateOf(rows)
  {
    hide LargestVersionCount, MinVersionWhere, MaxAmountWhere, LatestOf, MinVersion, MaxVersion, Image, Filter, SumSeq;
    hide CapturedMinor, RefundedMinor, ChargebackMinor, AuthorizedMinor, WindowStatus, StatusOf;
    LatestAgrees(window, rows, all);
    SingleAuthorization(rows);
    TotalsNonNegative(rows);
    assert rows[0] in rows;
    StatusAgrees(AuthorizedMinor(rows), CapturedMinor(rows), RefundedMinor(rows), ChargebackMinor(rows));
  }

  /**
   Windowed equals sequential: over any delivery order of the same events, the windowed job rejects the same
   transactions for the same reason, and gives accepted ones the same state row.
   */
  lemma WindowedEqualsSequential(window: seq<PaymentEvent>, rows: seq<PaymentEvent>, all: set<PaymentEvent>)
    requires Listing(window, all) && Listing(rows, all) && rows != [] && ByVersion(rows)
    requires forall e :: e in all ==> e.amountMinor > 0
    ensures window != []
    ensures BusinessError(window) == Assess(rows)
    ensures Assess(rows).None? ==> CurrentRow(window) == StateOf(rows)
  {
    hide WindowFacts, BusinessError, Assess, CurrentRow, StateOf, AcceptedShape;
    WindowFactsHold(window, rows, all);
    CascadeAgrees(window, rows);
    if Assess(rows).None? {
      AcceptedHasShape(rows);
      RowAgrees(window, rows, all);
    }
  }
}
