/** Versioned double-entry posting rules, posting lines and the balance assertion. */
module Ledger {
  import opened Wrappers
  import opened Sums
  import opened Numerals
  import opened Contracts

  datatype RuleLine = RuleLine(account: string, multiplier: int)

  datatype PostingRules = PostingRules(version: int, rules: map<EventType, seq<RuleLine>>)

  datatype PostingLine = PostingLine(
    entryId: string,
    eventId: string,
    transactionId: string,
    processorId: string,
    merchantId: string,
    currency: string,
    account: string,
    signedMinor: int,
    ruleVersion: int
  )

  datatype RuleError =
    | NotMinorUnits
    | InvalidVersion
    | NotAnObject
    | MissingRule(missing: EventType)
    | InvalidAccount(account: EventType)
    | InvalidMultiplier(multiplier: EventType)
    | UnbalancedRule(unbalanced: EventType)

  datatype PostingError = NoRule | UnbalancedPostingGroup

  const EVENT_TYPES := [Authorization, Capture, Refund, Chargeback]

  const PROCESSOR_RECEIVABLE := "processor_receivable"

  const MERCHANT_PAYABLE := "merchant_payable"

  const CHARGEBACK_LOSS := "chargeback_loss"

  /** The rules shipped with the system. */
  const CONFIGURED_RULES := PostingRules(1, map[
    Authorization := [],
    Capture := [RuleLine(PROCESSOR_RECEIVABLE, 1), RuleLine(MERCHANT_PAYABLE, -1)],
    Refund := [RuleLine(MERCHANT_PAYABLE, 1), RuleLine(PROCESSOR_RECEIVABLE, -1)],
    Chargeback := [RuleLine(CHARGEBACK_LOSS, 1), RuleLine(PROCESSOR_RECEIVABLE, -1)]
  ])

  // ---- rules ----

  function Multiplier(line: RuleLine): int {
    line.multiplier
  }

  function RuleFor(rules: PostingRules, eventType: EventType): seq<RuleLine> {
    if eventType in rules.rules then rules.rules[eventType] else []
  }

  /** Every event type has a rule and every rule's multipliers cancel. */
  ghost predicate BalancedRules(rules: PostingRules) {
    forall eventType: EventType :: eventType in rules.rules && SumSeq(rules.rules[eventType], Multiplier) == 0
  }

  function NameOf(eventType: EventType): string {
    match eventType
    case Authorization => "authorization"
    case Capture => "capture"
    case Refund => "refund"
    case Chargeback => "chargeback"
  }

  /** The version of a rule document; a Boolean counts as 0 or 1 there. */
  function VersionOf(raw: Raw): Option<int> {
    match Lookup(raw, "version")
    case Number(n) => Some(n)
    case Bool(b) => Some(if b then 1 else 0)
    case _ => None
  }

  predicate AcceptableLine(line: Json) {
    && line.Object?
    && Lookup(line.fields, "account").Text? && Lookup(line.fields, "account").s != ""
    && Lookup(line.fields, "multiplier").Number?
  }

  function ParsedLine(line: Json): RuleLine {
    if AcceptableLine(line)
    then RuleLine(Lookup(line.fields, "account").s, Lookup(line.fields, "multiplier").n)
    else RuleLine("", 0)
  }

  function ParsedLines(items: seq<Json>): seq<RuleLine> {
    seq(|items|, i requires 0 <= i < |items| => ParsedLine(items[i]))
  }

  function RuleItems(raw: Raw, eventType: EventType): Option<seq<Json>> {
    var table := Lookup(raw, "rules");
    if table.Object? && Lookup(table.fields, NameOf(eventType)).Array?
    then Some(Lookup(table.fields, NameOf(eventType)).items)
    else None
  }

  ghost predicate AcceptableRule(raw: Raw, eventType: EventType) {
    && RuleItems(raw, eventType).Some?
    && (forall line :: line in RuleItems(raw, eventType).value ==> AcceptableLine(line))
    && SumSeq(ParsedLines(RuleItems(raw, eventType).value), Multiplier) == 0
  }

  ghost predicate AcceptableDocument(raw: Raw) {
    && Lookup(raw, "currency_unit") == Text("minor")
    && VersionOf(raw).Some? && VersionOf(raw).value >= 1
    && forall eventType: EventType :: AcceptableRule(raw, eventType)
  }

  ghost predicate FirstBadLine(items: seq<Json>, i: int) {
    0 <= i < |items| && !AcceptableLine(items[i]) && forall j :: 0 <= j < i ==> AcceptableLine(items[j])
  }

  /** What is wrong with a malformed line. */
  ghost function LineError(line: Json, eventType: EventType): RuleError {
    if !line.Object? then NotAnObject
    else if "account" in line.fields && line.fields["account"].Text? && line.fields["account"].s != ""
    then InvalidMultiplier(eventType) else InvalidAccount(eventType)
  }

  /** Why a document is refused: each error is true of the document, and the rules before the faulty one are well formed. */
  ghost predicate Refuted(raw: Raw, error: RuleError) {
    match error
    case NotMinorUnits => Lookup(raw, "currency_unit") != Text("minor")
    case InvalidVersion => VersionOf(raw).None? || VersionOf(raw).value < 1
    case MissingRule(t) => RuleItems(raw, t).None? && EarlierAcceptable(raw, t)
    case UnbalancedRule(t) =>
      && RuleItems(raw, t).Some? && EarlierAcceptable(raw, t)
      && (forall line :: line in RuleItems(raw, t).value ==> AcceptableLine(line))
      && SumSeq(ParsedLines(RuleItems(raw, t).value), Multiplier) != 0
    case NotAnObject =>
      || ("rules" in raw && !raw["rules"].Object?)
      || exists t: EventType, i :: FaultyAt(raw, t, i) && !RuleItems(raw, t).value[i].Object?
    case InvalidAccount(t) => exists i :: FaultyAt(raw, t, i) && LineError(RuleItems(raw, t).value[i], t) == error
    case InvalidMultiplier(t) => exists i :: FaultyAt(raw, t, i) && LineError(RuleItems(raw, t).value[i], t) == error
  }

  ghost predicate FaultyAt(raw: Raw, t: EventType, i: int) {
    RuleItems(raw, t).Some? && FirstBadLine(RuleItems(raw, t).value, i) && EarlierAcceptable(raw, t)
  }

  ghost predicate EarlierAcceptable(raw: Raw, t: EventType) {
    forall k :: 0 <= k < |EVENT_TYPES| && (forall j :: 0 <= j <= k ==> EVENT_TYPES[j] != t) ==>
      AcceptableRule(raw, EVENT_TYPES[k])
  }

  /** Parses the lines of one rule; stops at the first malformed one. */
  method ParseRule(items: seq<Json>, eventType: EventType) returns (r: Result<seq<RuleLine>, RuleError>)
    ensures r.Ok? <==> forall line :: line in items ==> AcceptableLine(line)
    ensures r.Ok? ==> r.value == ParsedLines(items)
    ensures r.Err? ==> exists i :: FirstBadLine(items, i) && r.error == LineError(items[i], eventType)
  {
    var entries: seq<RuleLine> := [];
    for i := 0 to |items|
      invariant entries == ParsedLines(items[..i])
      invariant forall line :: line in items[..i] ==> AcceptableLine(line)
    {
      var line := items[i];
      assert line in items;
      if !line.Object? { return Err(NotAnObject); }
      var account := Lookup(line.fields, "account");
      if !account.Text? || account.s == "" { return Err(InvalidAccount(eventType)); }
      var multiplier := Lookup(line.fields, "multiplier");
      if !multiplier.Number? { return Err(InvalidMultiplier(eventType)); }
      entries := entries + [RuleLine(account.s, multiplier.n)];
    }
    assert items[..|items|] == items;
    r := Ok(entries);
  }

  /** Loads a rule document: it is accepted exactly when every rule is well formed and balances. */
  method LoadPostingRules(raw: Raw) returns (r: Result<PostingRules, RuleError>)
    ensures r.Ok? <==> AcceptableDocument(raw)
    ensures r.Ok? ==>
              && BalancedRules(r.value)
              && Some(r.value.version) == VersionOf(raw)
              && forall eventType: EventType ::
                   RuleFor(r.value, eventType) == ParsedLines(RuleItems(raw, eventType).GetOr([]))
    ensures r.Err? ==> Refuted(raw, r.error)
  {
    if Lookup(raw, "currency_unit") != Text("minor") { return Err(NotMinorUnits); }
    var version := VersionOf(raw);
    if version.None? || version.value < 1 { return Err(InvalidVersion); }
    var parsed: map<EventType, seq<RuleLine>> := map[];
    for k := 0 to |EVENT_TYPES|
      invariant forall t :: t in parsed <==> t in EVENT_TYPES[..k]
      invariant forall t :: t in parsed ==>
                  AcceptableRule(raw, t) && parsed[t] == ParsedLines(RuleItems(raw, t).value)
    {
      var eventType := EVENT_TYPES[k];
      var table := Lookup(raw, "rules");
      if "rules" in raw && !table.Object? {
        assert !AcceptableRule(raw, eventType);
        return Err(NotAnObject);
      }
      var items := RuleItems(raw, eventType);
      if items.None? { return Err(MissingRule(eventType)); }
      var entries := ParseRule(items.value, eventType);
      if entries.Err? { return Err(entries.error); }
      if SumSeq(entries.value, Multiplier) != 0 { return Err(UnbalancedRule(eventType)); }
      parsed := parsed[eventType := entries.value];
    }
    assert forall t: EventType :: t in parsed by {
      forall t: EventType ensures t in parsed {
        assert t == EVENT_TYPES[0] || t == EVENT_TYPES[1] || t == EVENT_TYPES[2] || t == EVENT_TYPES[3];
      }
    }
    r := Ok(PostingRules(version.value, parsed));
  }

  // ---- posting lines ----

  function EntryId(eventId: string, position: nat): string {
    eventId + [':'] + Decimal(position)
  }

  /** Entry ids never collide, although an event id may itself contain colons and digits. */
  lemma EntryIdInjective(a: string, i: nat, b: string, j: nat)
    ensures EntryId(a, i) == EntryId(b, j) <==> a == b && i == j
  {
    if EntryId(a, i) == EntryId(b, j) {
      SplitAtLast(a, Decimal(i), b, Decimal(j), ':');
      DecimalInjective(i, j);
    }
  }

  function LineOf(e: PaymentEvent, version: int, line: RuleLine, position: nat): PostingLine {
    PostingLine(EntryId(e.eventId, position), e.eventId, e.transactionId, e.processorId, e.merchantId,
                e.currency, line.account, e.amountMinor * line.multiplier, version)
  }

  function LinesOf(e: PaymentEvent, rules: PostingRules): (lines: seq<PostingLine>) {
    var rule := RuleFor(rules, e.eventType);
    seq(|rule|, i requires 0 <= i < |rule| => LineOf(e, rules.version, rule[i], i + 1))
  }

  lemma LineNamesEvent(e: PaymentEvent, rules: PostingRules, line: PostingLine)
    requires line in LinesOf(e, rules)
    ensures line.eventId == e.eventId && line.transactionId == e.transactionId
  {
  }

  function Signed(line: PostingLine): int {
    line.signedMinor
  }

  function GroupPart(eventId: string, currency: string): PostingLine -> int {
    (line: PostingLine) => if line.eventId == eventId && line.currency == currency then line.signedMinor else 0
  }

  /** Sum of one posting group: the lines of one event in one currency. */
  function GroupSum(lines: seq<PostingLine>, eventId: string, currency: string): int {
    SumSeq(lines, GroupPart(eventId, currency))
  }

  ghost predicate Balanced(lines: seq<PostingLine>) {
    forall eventId, currency :: GroupSum(lines, eventId, currency) == 0
  }

  lemma GroupSumAppend(lines: seq<PostingLine>, line: PostingLine, eventId: string, currency: string)
    ensures GroupSum(lines + [line], eventId, currency)
         == GroupSum(lines, eventId, currency) + GroupPart(eventId, currency)(line)
  {
    SumSeqConcat(lines, [line], GroupPart(eventId, currency));
    SumSeqSingle(line, GroupPart(eventId, currency));
  }

  /** Groups the lines in a dictionary and looks for a group that does not cancel. */
  method AssertBalanced(lines: seq<PostingLine>) returns (ok: bool)
    ensures ok <==> Balanced(lines)
  {
    var grouped: map<(string, string), int> := map[];
    for i := 0 to |lines|
      invariant forall a, b :: (if (a, b) in grouped then grouped[(a, b)] else 0) == GroupSum(lines[..i], a, b)
    {
      var line := lines[i];
      var key := (line.eventId, line.currency);
      assert lines[..i + 1] == lines[..i] + [line];
      forall a, b
        ensures GroupSum(lines[..i + 1], a, b) == GroupSum(lines[..i], a, b) + GroupPart(a, b)(line)
      {
        GroupSumAppend(lines[..i], line, a, b);
      }
      grouped := grouped[key := (if key in grouped then grouped[key] else 0) + line.signedMinor];
    }
    assert lines[..|lines|] == lines;
    var unbalanced := map key | key in grouped && grouped[key] != 0 :: grouped[key];
    ok := unbalanced == map[];
    if ok {
      forall a, b ensures GroupSum(lines, a, b) == 0 {
        assert (a, b) in grouped ==> (a, b) !in unbalanced;
      }
    } else {
      assert unbalanced.Keys != {};
      var key :| key in unbalanced;
      assert GroupSum(lines, key.0, key.1) != 0;
    }
  }

  /** An event's lines sum to its amount times the sum of its rule's multipliers. */
  lemma {:induction false} LinesSum(e: PaymentEvent, version: int, rule: seq<RuleLine>, lines: seq<PostingLine>, from: nat)
    requires |lines| == |rule|
    requires forall i :: 0 <= i < |rule| ==> lines[i] == LineOf(e, version, rule[i], from + i)
    ensures SumSeq(lines, Signed) == e.amountMinor * SumSeq(rule, Multiplier)
    decreases |rule|
  {
    if rule != [] {
      LinesSum(e, version, rule[1..], lines[1..], from + 1);
      assert SumSeq(lines, Signed) == e.amountMinor * rule[0].multiplier + SumSeq(lines[1..], Signed);
    }
  }

  /** All lines of an event belong to its one posting group. */
  lemma OneGroup(e: PaymentEvent, lines: seq<PostingLine>, eventId: string, currency: string)
    requires forall line :: line in lines ==> line.eventId == e.eventId && line.currency == e.currency
    ensures GroupSum(lines, eventId, currency)
         == (if eventId == e.eventId && currency == e.currency then SumSeq(lines, Signed) else 0)
  {
    if eventId == e.eventId && currency == e.currency {
      SumSeqCong(lines, GroupPart(eventId, currency), Signed);
    } else {
      SumSeqZero(lines, GroupPart(eventId, currency));
    }
  }

  lemma LinesOfSum(e: PaymentEvent, rules: PostingRules)
    ensures SumSeq(LinesOf(e, rules), Signed) == e.amountMinor * SumSeq(RuleFor(rules, e.eventType), Multiplier)
    ensures Balanced(LinesOf(e, rules)) <==> SumSeq(LinesOf(e, rules), Signed) == 0
  {
    var lines := LinesOf(e, rules);
    LinesSum(e, rules.version, RuleFor(rules, e.eventType), lines, 1);
    forall eventId, currency
      ensures GroupSum(lines, eventId, currency)
           == (if eventId == e.eventId && currency == e.currency then SumSeq(lines, Signed) else 0)
    {
      OneGroup(e, lines, eventId, currency);
    }
    assert GroupSum(lines, e.eventId, e.currency) == SumSeq(lines, Signed);
  }

  /** Builds the lines of one event; fails only for a missing rule or one whose money does not cancel. */
  method BuildPostings(e: PaymentEvent, rules: PostingRules) returns (r: Result<seq<PostingLine>, PostingError>)
    ensures r.Ok? <==>
              e.eventType in rules.rules
              && e.amountMinor * SumSeq(RuleFor(rules, e.eventType), Multiplier) == 0
    ensures r.Ok? ==> r.value == LinesOf(e, rules) && Balanced(r.value)
    ensures BalancedRules(rules) ==> r.Ok?
  {
    if e.eventType !in rules.rules { return Err(NoRule); }
    var lines := LinesOf(e, rules);
    var balanced := AssertBalanced(lines);
    LinesOfSum(e, rules);
    r := if balanced then Ok(lines) else Err(UnbalancedPostingGroup);
  }

  lemma ConfiguredRulesBalance()
    ensures BalancedRules(CONFIGURED_RULES)
  {
    forall t: EventType
      ensures t in CONFIGURED_RULES.rules && SumSeq(CONFIGURED_RULES.rules[t], Multiplier) == 0
    {
      assert t == Authorization || t == Capture || t == Refund || t == Chargeback;
      var rule := CONFIGURED_RULES.rules[t];
      if |rule| == 2 {
        assert rule[1..] == [rule[1]];
        SumSeqSingle(rule[1], Multiplier);
      }
    }
  }
}
