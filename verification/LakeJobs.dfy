/**
 The three batch jobs as they run: each reads the rows the engine delivers and merges into its tables in
 sequence.  Every job is proved to perform exactly the pipeline's steps, and its balance gate never fires.
 */
module LakeJobs {
  import opened Sums
  import opened Contracts
  import opened Ledger
  import opened Lifecycle
  import opened History
  import opened Reconstruction
  import opened Pipeline

  function Untimed(lines: seq<TimedLine>): seq<PostingLine> {
    seq(|lines|, i requires 0 <= i < |lines| => lines[i].line)
  }

  /** The configured rules' lines of all events, event by event. */
  function KernelLines(events: seq<PaymentEvent>): seq<PostingLine> {
    if events == [] then [] else LinesOf(events[0], CONFIGURED_RULES) + KernelLines(events[1..])
  }

  lemma UntimedStep(first: TimedLine, rest: seq<TimedLine>)
    ensures Untimed([first] + rest) == [first.line] + Untimed(rest)
  {
  }

  lemma UntimedJoin(a: seq<TimedLine>, b: seq<TimedLine>)
    ensures Untimed(a + b) == Untimed(a) + Untimed(b)
  {
  }

  lemma NoLines()
    ensures Untimed(Debits([])) == [] && Untimed(Credits([])) == []
  {
  }

  lemma SidesStep(e: PaymentEvent, rest: seq<PaymentEvent>)
    ensures Untimed(Debits([e] + rest)) == [DebitLine(e).line] + Untimed(Debits(rest))
    ensures Untimed(Credits([e] + rest)) == [CreditLine(e).line] + Untimed(Credits(rest))
  {
    assert Debits([e] + rest) == [DebitLine(e)] + Debits(rest);
    assert Credits([e] + rest) == [CreditLine(e)] + Credits(rest);
    UntimedStep(DebitLine(e), Debits(rest));
    UntimedStep(CreditLine(e), Credits(rest));
  }

  lemma {:induction false} SidesAreKernelLines(monetary: seq<PaymentEvent>)
    requires forall e :: e in monetary ==> IsMonetary(e)
    ensures multiset(Untimed(Debits(monetary))) + multiset(Untimed(Credits(monetary))) == multiset(KernelLines(monetary))
  {
    hide DebitLine, CreditLine, LinesOf, Untimed;
    if monetary == [] {
      NoLines();
    } else {
      var e, rest := monetary[0], monetary[1..];
      SidesAreKernelLines(rest);
      SidesStep(e, rest);
      assert monetary == [e] + rest;
      LinesAgree(e);
      var d, c := DebitLine(e).line, CreditLine(e).line;
      assert KernelLines(monetary) == [d, c] + KernelLines(rest);
    }
  }

  lemma {:induction false} OnlyMonetaryLines(events: seq<PaymentEvent>)
    ensures KernelLines(Filter(events, IsMonetary)) == KernelLines(events)
  {
    if events != [] {
      OnlyMonetaryLines(events[1..]);
      LinesAgree(events[0]);
      if IsMonetary(events[0]) {
        assert ([events[0]] + Filter(events[1..], IsMonetary))[1..] == Filter(events[1..], IsMonetary);
      }
    }
  }

  /** The pipeline posts the same multiset of lines as the configured rules. */
  lemma SameLines(events: seq<PaymentEvent>)
    ensures multiset(Untimed(PostingLines(events))) == multiset(KernelLines(events))
  {
    var monetary := Filter(events, IsMonetary);
    SidesAreKernelLines(monetary);
    UntimedJoin(Debits(monetary), Credits(monetary));
    OnlyMonetaryLines(events);
  }

  function AmountFor(eventId: string, currency: string): PaymentEvent -> int {
    (e: PaymentEvent) => if e.eventId == eventId && e.currency == currency then e.amountMinor else 0
  }

  lemma {:induction false} SidesCancel(monetary: seq<PaymentEvent>, eventId: string, currency: string)
    ensures GroupSum(Untimed(Debits(monetary)), eventId, currency) == SumSeq(monetary, AmountFor(eventId, currency))
    ensures GroupSum(Untimed(Credits(monetary)), eventId, currency) == -SumSeq(monetary, AmountFor(eventId, currency))
  {
    if monetary != [] {
      var e, rest := monetary[0], monetary[1..];
      SidesCancel(rest, eventId, currency);
      assert monetary == [e] + rest;
      SidesStep(e, rest);
      assert Untimed(Debits(monetary))[1..] == Untimed(Debits(rest));
      assert Untimed(Credits(monetary))[1..] == Untimed(Credits(rest));
    }
  }

  /** The double-entry gate of the posting job never fires. */
  lemma GateNeverFires(events: seq<PaymentEvent>)
    ensures Balanced(Untimed(PostingLines(events)))
  {
    var monetary := Filter(events, IsMonetary);
    UntimedJoin(Debits(monetary), Credits(monetary));
    forall eventId, currency ensures GroupSum(Untimed(PostingLines(events)), eventId, currency) == 0 {
      SidesCancel(monetary, eventId, currency);
      SumSeqConcat(Untimed(Debits(monetary)), Untimed(Credits(monetary)), GroupPart(eventId, currency));
    }
  }

  class LakeTables {
    var accepted: Accepted
    var states: map<string, PaymentState>
    var exceptions: map<string, WindowException>
    var posted: map<string, PaymentEvent>
    var ledger: map<string, TimedLine>

    constructor ()
      ensures Snapshot({}) == EMPTY_LAKE
    {
      accepted, states, exceptions, posted, ledger := map[], map[], map[], map[], map[];
    }

    function Snapshot(unmerged: set<(string, Merge)>): Lake
      reads this
    {
      Lake(accepted, states, exceptions, posted, ledger, unmerged)
    }

    /** Inserts events whose id is not yet present. */
    method IngestAcceptedEvents(incoming: Accepted, ghost dateOf: PaymentEvent -> string,
                                ghost unmerged: set<(string, Merge)>)
      requires Deliverable(incoming)
      modifies this`accepted
      ensures Snapshot(unmerged + AllMerges(Gaining(old(accepted), incoming)))
           == Next(dateOf, old(Snapshot(unmerged)), Ingest(incoming))
    {
      var unmatched := map id | id in incoming && id !in accepted :: incoming[id];
      assert accepted + unmatched == incoming + accepted;
      accepted := accepted + unmatched;
    }

    /** Merges state rows first, exception rows second. */
    method ReconstructPaymentState(frame: seq<PaymentEvent>, ghost dateOf: PaymentEvent -> string, ghost date: string,
                                   ghost unmerged: set<(string, Merge)>)
      requires Listing(frame, Affected(dateOf, accepted, date)) && IdsUnique(frame)
      modifies this`states, this`exceptions
      ensures var touched := Touched(dateOf, accepted, date);
        Snapshot(unmerged - OneMerge(touched, StateMerge) - OneMerge(touched, ExceptionMerge))
           == Next(dateOf,
                   Next(dateOf, old(Snapshot(unmerged)), Apply(StateMerge, date, frame)),
                   Apply(ExceptionMerge, date, frame))
    {
      hide Reconstruct, Affected;
      var result := Reconstruct(frame);
      states := states + result.current;
      exceptions := exceptions + result.exceptions;
    }

    /** Posts the events of unexcepted rows; fails only if a posting group does not balance, which never happens. */
    method PostLedger(frame: seq<PaymentEvent>, ghost dateOf: PaymentEvent -> string, ghost date: string,
                      ghost unmerged: set<(string, Merge)>)
      returns (ok: bool)
      requires Listing(frame, Affected(dateOf, accepted, date)) && IdsUnique(frame)
      modifies this`posted, this`ledger
      ensures ok
      ensures var touched := Touched(dateOf, accepted, date);
        Snapshot(unmerged - OneMerge(touched, PostedMerge) - OneMerge(touched, LedgerMerge))
           == Next(dateOf,
                   Next(dateOf, old(Snapshot(unmerged)), Apply(PostedMerge, date, frame)),
                   Apply(LedgerMerge, date, frame))
    {
      hide Affected, PostingLines, ByEventId, ByEntryId;
      var events := ToPost(exceptions, frame);
      var lines := PostingLines(events);
      ok := AssertBalanced(Untimed(lines));
      GateNeverFires(events);
      if !ok { return; }
      posted := ByEventId(events) + posted;
      ledger := ByEntryId(lines) + ledger;
    }
  }
}
