/** Posting rule documents: exactly which ones are acceptable, and that every well-formed rule set survives a round trip. */
module RuleLaws {
  import opened Wrappers
  import opened Sums
  import opened Contracts
  import opened Ledger

  // ---- which documents are acceptable ----

  predicate StatesLine(line: Json) {
    && line.Object?
    && "account" in line.fields && line.fields["account"].Text? && line.fields["account"] != Text("")
    && "multiplier" in line.fields && line.fields["multiplier"].Number?
  }

  function MultiplierIn(line: Json): int {
    if StatesLine(line) then line.fields["multiplier"].n else 0
  }

  /** The document has a list of well-formed lines under the name, and their multipliers cancel. */
  ghost predicate StatesRule(raw: Raw, name: string) {
    && "rules" in raw && raw["rules"].Object?
    && name in raw["rules"].fields && raw["rules"].fields[name].Array?
    && var items := raw["rules"].fields[name].items;
    && (forall i :: 0 <= i < |items| ==> StatesLine(items[i]))
    && SumSeq(items, MultiplierIn) == 0
  }

  /** A positive integer; a true Boolean counts as one. */
  ghost predicate StatesVersion(raw: Raw) {
    && "version" in raw
    && ((raw["version"].Number? && raw["version"].n >= 1) || raw["version"] == Bool(true))
  }

  lemma {:induction false} MultipliersAgree(items: seq<Json>)
    requires forall i :: 0 <= i < |items| ==> StatesLine(items[i])
    ensures SumSeq(ParsedLines(items), Multiplier) == SumSeq(items, MultiplierIn)
  {
    if items != [] {
      MultipliersAgree(items[1..]);
      assert ParsedLines(items)[1..] == ParsedLines(items[1..]);
    }
  }

  lemma RuleIsStated(raw: Raw, eventType: EventType)
    ensures AcceptableRule(raw, eventType) <==> StatesRule(raw, NameOf(eventType))
  {
    hide NameOf;
    forall line ensures AcceptableLine(line) <==> StatesLine(line) {}
    var items := RuleItems(raw, eventType).GetOr([]);
    if forall line :: line in items ==> AcceptableLine(line) {
      forall i | 0 <= i < |items| ensures StatesLine(items[i]) { assert items[i] in items; }
      MultipliersAgree(items);
    }
  }

  /** A document is acceptable exactly if it is in minor units, has a positive version and states all four rules. */
  lemma DocumentIsExact(raw: Raw)
    ensures AcceptableDocument(raw)
       <==> && "currency_unit" in raw && raw["currency_unit"] == Text("minor") && StatesVersion(raw)
            && StatesRule(raw, "authorization") && StatesRule(raw, "capture")
            && StatesRule(raw, "refund") && StatesRule(raw, "chargeback")
  {
    hide AcceptableRule, StatesRule;
    forall t: EventType ensures AcceptableRule(raw, t) <==> StatesRule(raw, NameOf(t)) { RuleIsStated(raw, t); }
    assert AcceptableRule(raw, Authorization) <==> StatesRule(raw, "authorization");
    assert AcceptableRule(raw, Capture) <==> StatesRule(raw, "capture");
    assert AcceptableRule(raw, Refund) <==> StatesRule(raw, "refund");
    assert AcceptableRule(raw, Chargeback) <==> StatesRule(raw, "chargeback");
  }

  // ---- writing rules down and loading them ----

  function LineJson(line: RuleLine): Json {
    Object(map["account" := Text(line.account), "multiplier" := Number(line.multiplier)])
  }

  function LinesJson(lines: seq<RuleLine>): seq<Json> {
    seq(|lines|, i requires 0 <= i < |lines| => LineJson(lines[i]))
  }

  function Document(rules: PostingRules): Raw {
    map["version" := Number(rules.version), "currency_unit" := Text("minor"),
        "rules" := Object(map["authorization" := Array(LinesJson(RuleFor(rules, Authorization))),
                              "capture" := Array(LinesJson(RuleFor(rules, Capture))),
                              "refund" := Array(LinesJson(RuleFor(rules, Refund))),
                              "chargeback" := Array(LinesJson(RuleFor(rules, Chargeback)))])]
  }

  lemma LinesRoundTrip(lines: seq<RuleLine>)
    requires forall line :: line in lines ==> line.account != ""
    ensures ParsedLines(LinesJson(lines)) == lines
    ensures forall item :: item in LinesJson(lines) ==> AcceptableLine(item)
  {
    var items := LinesJson(lines);
    forall i | 0 <= i < |lines| ensures AcceptableLine(items[i]) && ParsedLine(items[i]) == lines[i] {
      assert lines[i] in lines;
    }
  }

  /** Every balanced rule set with named accounts and a positive version is loaded back from its document unchanged. */
  lemma DocumentRoundTrip(rules: PostingRules)
    requires rules.version >= 1 && BalancedRules(rules)
    requires forall t: EventType, line :: line in RuleFor(rules, t) ==> line.account != ""
    ensures AcceptableDocument(Document(rules))
    ensures VersionOf(Document(rules)) == Some(rules.version)
    ensures forall t: EventType :: ParsedLines(RuleItems(Document(rules), t).GetOr([])) == rules.rules[t]
  {
    hide ParsedLines, LinesJson;
    var raw := Document(rules);
    forall t: EventType
      ensures RuleItems(raw, t) == Some(LinesJson(RuleFor(rules, t)))
      ensures AcceptableRule(raw, t) && ParsedLines(LinesJson(RuleFor(rules, t))) == rules.rules[t]
    {
      ItemsOf(rules, t);
      LinesRoundTrip(RuleFor(rules, t));
    }
  }

  lemma ItemsOf(rules: PostingRules, t: EventType)
    ensures RuleItems(Document(rules), t) == Some(LinesJson(RuleFor(rules, t)))
  {
    hide LinesJson, RuleFor;
    var table := Document(rules)["rules"];
    assert Lookup(table.fields, NameOf(t)) == Array(LinesJson(RuleFor(rules, t)));
  }

  // ---- lines of an event ----

  /** The k-th line puts the k-th multiple of the amount on the k-th account, under the event's own names. */
  ghost predicate SaysLine(l: PostingLine, e: PaymentEvent, rules: PostingRules, k: int) {
    && 0 <= k < |RuleFor(rules, e.eventType)|
    && l.entryId == EntryId(e.eventId, k + 1)
    && l.eventId == e.eventId && l.transactionId == e.transactionId
    && l.processorId == e.processorId && l.merchantId == e.merchantId && l.currency == e.currency
    && l.account == RuleFor(rules, e.eventType)[k].account
    && l.signedMinor == e.amountMinor * RuleFor(rules, e.eventType)[k].multiplier
    && l.ruleVersion == rules.version
  }

  lemma LinesAreExact(e: PaymentEvent, rules: PostingRules, l: PostingLine)
    ensures l in LinesOf(e, rules) <==> exists k :: SaysLine(l, e, rules, k)
  {
    var lines := LinesOf(e, rules);
    if l in lines {
      var k :| 0 <= k < |lines| && lines[k] == l;
      assert SaysLine(l, e, rules, k);
    }
    if k :| SaysLine(l, e, rules, k) { assert lines[k] == l; }
  }
}
