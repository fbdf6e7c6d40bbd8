/** Expected settlement from posted events, and the comparison with external evidence. */
module Settlement {
  import opened Sums
  import opened Contracts
  import opened Projection

  datatype SettlementKey = SettlementKey(businessDate: string, processorId: string, currency: string)

  type Amounts = map<SettlementKey, int>

  datatype Delta = Delta(expectedMinor: int, actualMinor: int, deltaMinor: int)

  datatype ActualRow = ActualRow(key: SettlementKey, amountMinor: int)

  /** The first ten characters of an event time. */
  function BusinessDate(eventTime: string): string {
    if |eventTime| < 10 then eventTime else eventTime[..10]
  }

  function KeyOf(r: PostedRow): SettlementKey {
    SettlementKey(BusinessDate(r.eventTime), r.processorId, r.currency)
  }

  /** Captures are owed by the processor; refunds and chargebacks reduce what is owed. */
  function Contribution(r: PostedRow): int {
    match r.eventType
    case Capture => r.amountMinor
    case Refund => -r.amountMinor
    case Chargeback => -r.amountMinor
    case Authorization => 0
  }

  function ContributionTo(key: SettlementKey): PostedRow -> int {
    (r: PostedRow) => if KeyOf(r) == key then Contribution(r) else 0
  }

  /** One group per date, processor and currency that occurs among the posted events. */
  function ExpectedSettlement(posted: seq<PostedRow>): Amounts {
    var keys := set r | r in posted :: KeyOf(r);
    map key | key in keys :: SumSeq(posted, ContributionTo(key))
  }

  // ---- what is expected, row by row ----

  /** The date is the text's first ten characters, or all of a shorter text. */
  ghost predicate Dated(time: string, date: string) {
    date <= time && |date| == if |time| < 10 then |time| else 10
  }

  ghost predicate BelongsTo(r: PostedRow, key: SettlementKey) {
    Dated(r.eventTime, key.businessDate) && r.processorId == key.processorId && r.currency == key.currency
  }

  function MinorOf(r: PostedRow): int { r.amountMinor }

  ghost function Selected(posted: seq<PostedRow>, key: SettlementKey, eventType: EventType): seq<PostedRow> {
    if posted == [] then []
    else (if BelongsTo(posted[0], key) && posted[0].eventType == eventType then [posted[0]] else [])
         + Selected(posted[1..], key, eventType)
  }

  ghost function Owed(posted: seq<PostedRow>, key: SettlementKey): int {
    SumSeq(Selected(posted, key, Capture), MinorOf) - SumSeq(Selected(posted, key, Refund), MinorOf)
    - SumSeq(Selected(posted, key, Chargeback), MinorOf)
  }

  lemma BelongsIsKey(r: PostedRow, key: SettlementKey)
    ensures BelongsTo(r, key) <==> KeyOf(r) == key
  {
    var date := BusinessDate(r.eventTime);
    assert date <= r.eventTime;
    if BelongsTo(r, key) { assert key.businessDate == r.eventTime[..|key.businessDate|]; }
  }

  lemma SelectedStep(r: PostedRow, rest: seq<PostedRow>, key: SettlementKey, eventType: EventType)
    ensures SumSeq(Selected([r] + rest, key, eventType), MinorOf)
         == SumSeq(Selected(rest, key, eventType), MinorOf)
          + if BelongsTo(r, key) && r.eventType == eventType then r.amountMinor else 0
  {
    var own := if BelongsTo(r, key) && r.eventType == eventType then [r] else [];
    assert ([r] + rest)[0] == r && ([r] + rest)[1..] == rest;
    assert Selected([r] + rest, key, eventType) == own + Selected(rest, key, eventType);
    SumSeqConcat(own, Selected(rest, key, eventType), MinorOf);
    SumSeqSingle(r, MinorOf);
  }

  lemma {:induction false} ContributionsOwed(posted: seq<PostedRow>, key: SettlementKey)
    ensures SumSeq(posted, ContributionTo(key)) == Owed(posted, key)
  {
    if posted != [] {
      var r, rest := posted[0], posted[1..];
      ContributionsOwed(rest, key);
      assert posted == [r] + rest;
      BelongsIsKey(r, key);
      SelectedStep(r, rest, key, Capture);
      SelectedStep(r, rest, key, Refund);
      SelectedStep(r, rest, key, Chargeback);
    }
  }

  /** Exactly the days and parties with posted events are expected to settle, for captures less refunds and chargebacks. */
  lemma ExpectedIsExact(posted: seq<PostedRow>, key: SettlementKey)
    ensures key in ExpectedSettlement(posted) <==> exists r :: r in posted && BelongsTo(r, key)
    ensures At(ExpectedSettlement(posted), key) == Owed(posted, key)
  {
    hide BelongsTo, KeyOf, Owed;
    forall r ensures BelongsTo(r, key) <==> KeyOf(r) == key { BelongsIsKey(r, key); }
    ContributionsOwed(posted, key);
    if key !in ExpectedSettlement(posted) {
      forall r | r in posted ensures ContributionTo(key)(r) == 0 { assert KeyOf(r) != key; }
      SumSeqZero(posted, ContributionTo(key));
    }
  }

  // ---- reconciliation ----

  function At(amounts: Amounts, key: SettlementKey): int {
    if key in amounts then amounts[key] else 0
  }

  function Deltas(expected: Amounts, actual: Amounts): map<SettlementKey, Delta> {
    map key | key in expected.Keys + actual.Keys && At(expected, key) != At(actual, key) ::
      Delta(At(expected, key), At(actual, key), At(expected, key) - At(actual, key))
  }

  function Abs(n: int): nat {
    if n < 0 then -n else n
  }

  function DeltaAt(deltas: map<SettlementKey, Delta>): SettlementKey -> int {
    key => if key in deltas then deltas[key].deltaMinor else 0
  }

  function AbsDeltaAt(deltas: map<SettlementKey, Delta>): SettlementKey -> int {
    key => if key in deltas then Abs(deltas[key].deltaMinor) else 0
  }

  function AmountAt(amounts: Amounts): SettlementKey -> int {
    key => At(amounts, key)
  }

  ghost function TotalAmount(amounts: Amounts): int {
    Sum(amounts.Keys, AmountAt(amounts))
  }

  ghost function AbsoluteDelta(deltas: map<SettlementKey, Delta>): int {
    Sum(deltas.Keys, AbsDeltaAt(deltas))
  }

  function ActualAmounts(rows: seq<ActualRow>): Amounts {
    if rows == [] then map[]
    else ActualAmounts(rows[..|rows| - 1])[rows[|rows| - 1].key := rows[|rows| - 1].amountMinor]
  }

  /** What the evidence says about a key: its row's amount, and zero without a row. */
  ghost predicate States(rows: seq<ActualRow>, key: SettlementKey, amount: int) {
    || (exists i :: 0 <= i < |rows| && rows[i].key == key && rows[i].amountMinor == amount)
    || (amount == 0 && forall i :: 0 <= i < |rows| ==> rows[i].key != key)
  }

  /** Every row has the expected amount and every expected amount without a row is zero. */
  ghost predicate Agrees(expected: Amounts, rows: seq<ActualRow>) {
    && (forall i :: 0 <= i < |rows| ==> rows[i].amountMinor == At(expected, rows[i].key))
    && (forall key :: key in expected && (forall i :: 0 <= i < |rows| ==> rows[i].key != key) ==> expected[key] == 0)
  }

  /** Each recorded difference is that of the expected amount and the evidence, and every difference is recorded. */
  ghost predicate Records(deltas: map<SettlementKey, Delta>, expected: Amounts, rows: seq<ActualRow>) {
    && (forall key :: key in deltas ==>
          && deltas[key].expectedMinor == At(expected, key)
          && States(rows, key, deltas[key].actualMinor)
          && deltas[key].deltaMinor == deltas[key].expectedMinor - deltas[key].actualMinor
          && deltas[key].deltaMinor != 0)
    && (forall key, amount :: States(rows, key, amount) && amount != At(expected, key) ==> key in deltas)
  }

  ghost predicate DistinctKeys(rows: seq<ActualRow>) {
    forall i, j :: 0 <= i < j < |rows| ==> rows[i].key != rows[j].key
  }

  lemma {:induction false} ActualKeys(rows: seq<ActualRow>)
    ensures forall key :: key in ActualAmounts(rows) <==> exists i :: 0 <= i < |rows| && rows[i].key == key
  {
    if rows != [] {
      var front, last := rows[..|rows| - 1], rows[|rows| - 1];
      ActualKeys(front);
      forall key ensures key in ActualAmounts(rows) <==> exists i :: 0 <= i < |rows| && rows[i].key == key {
        if key in ActualAmounts(front) {
          var i :| 0 <= i < |front| && front[i].key == key;
          assert rows[i].key == key;
        }
        if i :| 0 <= i < |rows| && rows[i].key == key {
          if i < |front| { assert front[i].key == key; }
        }
        assert rows[|rows| - 1].key == last.key;
      }
    }
  }

  /** Evidence rows with distinct keys are stored amount by amount. */
  lemma {:induction false} ActualHolds(rows: seq<ActualRow>)
    requires DistinctKeys(rows)
    ensures forall i :: 0 <= i < |rows| ==>
              rows[i].key in ActualAmounts(rows) && ActualAmounts(rows)[rows[i].key] == rows[i].amountMinor
  {
    if rows != [] {
      var front := rows[..|rows| - 1];
      ActualHolds(front);
      forall i | 0 <= i < |front|
        ensures rows[i].key in ActualAmounts(rows) && ActualAmounts(rows)[rows[i].key] == rows[i].amountMinor
      {
        assert front[i] == rows[i];
      }
    }
  }

  lemma AtStates(rows: seq<ActualRow>, key: SettlementKey)
    requires DistinctKeys(rows)
    ensures forall amount :: States(rows, key, amount) <==> amount == At(ActualAmounts(rows), key)
  {
    hide ActualAmounts;
    ActualKeys(rows);
    ActualHolds(rows);
    forall amount ensures States(rows, key, amount) <==> amount == At(ActualAmounts(rows), key) {
      if key in ActualAmounts(rows) {
        var i :| 0 <= i < |rows| && rows[i].key == key;
      }
    }
  }

  /** The comparison in terms of the delivered rows. */
  lemma ComparisonIsExact(expected: Amounts, rows: seq<ActualRow>)
    requires DistinctKeys(rows)
    ensures Records(Deltas(expected, ActualAmounts(rows)), expected, rows)
    ensures Agrees(expected, rows) <==> forall key :: At(expected, key) == At(ActualAmounts(rows), key)
  {
    hide ActualAmounts, States;
    var actual := ActualAmounts(rows);
    ActualKeys(rows);
    ActualHolds(rows);
    forall key ensures forall amount :: States(rows, key, amount) <==> amount == At(actual, key) {
      AtStates(rows, key);
    }
    var deltas := Deltas(expected, actual);
    forall key, amount | States(rows, key, amount) && amount != At(expected, key) ensures key in deltas {
      assert At(actual, key) == amount;
    }
    forall key | key in deltas ensures States(rows, key, deltas[key].actualMinor) {
      assert deltas[key].actualMinor == At(actual, key);
    }
    if Agrees(expected, rows) {
      forall key ensures At(expected, key) == At(actual, key) {
        if key in actual { var i :| 0 <= i < |rows| && rows[i].key == key; }
      }
    }
    if forall key :: At(expected, key) == At(actual, key) {
      assert forall i :: 0 <= i < |rows| ==> At(expected, rows[i].key) == At(actual, rows[i].key);
      forall key | key in expected && (forall i :: 0 <= i < |rows| ==> rows[i].key != key) ensures expected[key] == 0 {
        assert At(expected, key) == At(actual, key);
      }
    }
  }

  /** Evidence and expectation differ by exactly the recorded deltas, absent amounts counting as zero. */
  lemma DeltasExplain(expected: Amounts, actual: Amounts)
    ensures forall key :: At(expected, key) == At(actual, key) + DeltaAt(Deltas(expected, actual))(key)
    ensures Deltas(expected, actual) == map[] <==> forall key :: At(expected, key) == At(actual, key)
  {
    var deltas := Deltas(expected, actual);
    if deltas == map[] {
      forall key ensures At(expected, key) == At(actual, key) {
        assert key !in deltas;
      }
    }
    if forall key :: At(expected, key) == At(actual, key) {
      assert forall key :: key !in deltas;
    }
  }

  lemma {:induction false} AbsoluteBound(keys: set<SettlementKey>, deltas: map<SettlementKey, Delta>)
    ensures Abs(Sum(keys, DeltaAt(deltas))) <= Sum(keys, AbsDeltaAt(deltas))
  {
    if keys != {} {
      var key :| key in keys;
      SumRemove(keys, DeltaAt(deltas), key);
      SumRemove(keys, AbsDeltaAt(deltas), key);
      AbsoluteBound(keys - {key}, deltas);
    }
  }

  function Over(deltas: map<SettlementKey, Delta>): SettlementKey -> int {
    key => if key in deltas && deltas[key].deltaMinor > 0 then deltas[key].deltaMinor else 0
  }

  function Under(deltas: map<SettlementKey, Delta>): SettlementKey -> int {
    key => if key in deltas && deltas[key].deltaMinor < 0 then -deltas[key].deltaMinor else 0
  }

  /** The absolute delta is everything expected too much plus everything expected too little. */
  lemma AbsoluteIsOverAndUnder(deltas: map<SettlementKey, Delta>)
    ensures AbsoluteDelta(deltas) == Sum(deltas.Keys, Over(deltas)) + Sum(deltas.Keys, Under(deltas))
  {
    SumAdd(deltas.Keys, Over(deltas), Under(deltas), AbsDeltaAt(deltas));
  }

  /** The gate opens exactly when the zero-extended amounts agree, i.e. when the absolute delta is zero. */
  lemma GateIsExact(expected: Amounts, actual: Amounts)
    ensures var deltas := Deltas(expected, actual);
      && (deltas == map[] <==> AbsoluteDelta(deltas) == 0)
      && AbsoluteDelta(deltas) >= Abs(TotalAmount(expected) - TotalAmount(actual))
  {
    var deltas := Deltas(expected, actual);
    SumNonNegative(deltas.Keys, AbsDeltaAt(deltas));
    if deltas == map[] {
      assert deltas.Keys == {};
    } else {
      assert deltas.Keys != {};
      var key :| key in deltas.Keys;
      assert AbsDeltaAt(deltas)(key) > 0;
    }
    var all := expected.Keys + actual.Keys;
    DeltasExplain(expected, actual);
    SumSupport(expected.Keys, all, AmountAt(expected));
    SumSupport(actual.Keys, all, AmountAt(actual));
    SumSupport(deltas.Keys, all, DeltaAt(deltas));
    SumSupport(deltas.Keys, all, AbsDeltaAt(deltas));
    SumAdd(all, AmountAt(actual), DeltaAt(deltas), AmountAt(expected));
    AbsoluteBound(all, deltas);
  }
}
