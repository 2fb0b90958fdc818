// What a reconciliation run sees of the ledger: the debits of each source added up, against what the
// source moved.
module ReconciledLedger {
  import opened Prelude
  import opened Money
  import opened Ledger
  import opened Fees
  import opened FxSettlement
  import opened Books
  import R = Reconciliation
  import opened ReconciliationRuns
  import Shares

  // The reference of a source is its id alone; postings of the FX sweep have none.
  type References = Source -> Option<nat>

  function RowsOf(es: seq<Entry>, ids: References): seq<LedgerRow> {
    seq(|es|, k requires 0 <= k < |es| => LedgerRow(ids(es[k].source), es[k].leg.direction == DEBIT, es[k].leg.amount))
  }

  // The internal line of a reference.
  function LedgerLine(es: seq<Entry>, ids: References, r: nat): int {
    R.SumOf(DebitLines(RowsOf(es, ids)), r)
  }

  function LineWeight(e: Entry, ids: References, r: nat): int {
    if ids(e.source) == Some(r) && e.leg.direction == DEBIT then e.leg.amount else 0
  }

  lemma LedgerLineSnoc(es: seq<Entry>, e: Entry, ids: References, r: nat)
    ensures LedgerLine(es + [e], ids, r) == LedgerLine(es, ids, r) + LineWeight(e, ids, r)
  {
    var rows := RowsOf(es + [e], ids);
    assert rows[..|es|] == RowsOf(es, ids);
    var before := DebitLines(RowsOf(es, ids));
    if ids(e.source).Some? && e.leg.direction == DEBIT {
      var line := R.Line(ids(e.source).value, e.leg.amount);
      assert DebitLines(rows) == before + [line];
      assert (before + [line])[..|before|] == before;
    } else {
      assert DebitLines(rows) == before + [] == before;
    }
  }

  // ---------------------------------------------------------------------------
  // Postings and their lines
  // ---------------------------------------------------------------------------

  predicate DebitThenCredit(p: Posting) {
    p.debit.direction == DEBIT && p.credit.direction == CREDIT
  }

  // What the postings of a reference's sources move.
  function MovedFor(ps: seq<Posting>, ids: References, r: nat): int {
    if ps == [] then 0
    else
      var p := ps[|ps| - 1];
      MovedFor(ps[..|ps| - 1], ids, r) + if ids(p.source) == Some(r) then p.debit.amount else 0
  }

  lemma {:induction false} BatchAddsWhatItMoves(es: seq<Entry>, ps: seq<Posting>, ids: References, r: nat)
    requires forall p :: p in ps ==> DebitThenCredit(p)
    ensures LedgerLine(PostAll(es, ps), ids, r) == LedgerLine(es, ids, r) + MovedFor(ps, ids, r)
  {
    if ps != [] {
      var n := |ps| - 1;
      assert ps[n] in ps;
      BatchAddsWhatItMoves(es, ps[..n], ids, r);
      var before, after := PostAll(es, ps[..n]), PostAll(es, ps);
      LedgerLineSnoc(before, after[|before|], ids, r);
      assert after == (before + [after[|before|]]) + [after[|before| + 1]];
      LedgerLineSnoc(before + [after[|before|]], after[|before| + 1], ids, r);
    }
  }

  lemma {:induction false} MovedForConcat(a: seq<Posting>, b: seq<Posting>, ids: References, r: nat)
    ensures MovedFor(a + b, ids, r) == MovedFor(a, ids, r) + MovedFor(b, ids, r)
  {
    if b == [] {
      assert a + b == a;
    } else {
      assert (a + b)[..|a + b| - 1] == a + b[..|b| - 1];
      MovedForConcat(a, b[..|b| - 1], ids, r);
    }
  }

  lemma MovedForOne(p: Posting, present: bool, ids: References, r: nat)
    requires ids(p.source) == Some(r)
    ensures MovedFor(if present then [p] else [], ids, r) == if present then p.debit.amount else 0
  {
    assert [p][..0] == [];
  }

  // The line of a paid payout gains exactly its amount.
  lemma PayoutLineIsItsAmount(s: State, id: nat, ids: References, r: nat)
    requires MarkPayoutPaid(s, id).Commit? && ids(FromPayout(id)) == Some(r)
    ensures LedgerLine(MarkPayoutPaid(s, id).state.entries, ids, r)
            == LedgerLine(s.entries, ids, r) + s.payouts[id].amount
  {
    var p := Settlement(id, s.payouts[id]);
    assert PostAll(s.entries, [p]) == Post(s.entries, p) by { assert [p][..0] == []; }
    BatchAddsWhatItMoves(s.entries, [p], ids, r);
    MovedForOne(p, true, ids, r);
  }

  // ---------------------------------------------------------------------------
  // Captures
  // ---------------------------------------------------------------------------

  // The gross leaves CASH, and then COLLECTED again: for the charges and the net, or for the split,
  // whose platform share then pays the charges.
  function CaptureDebits(x: Capture, plan: CapturePlan): int {
    x.amount + plan.fee + plan.tax + plan.reserve + if x.rule.None? then Max(plan.net, 0) else x.amount
  }

  lemma {:induction false} ShareMovesMove(o: SplitOrder, shares: seq<Shares.ShareSpec>, amounts: seq<int>,
                                          ids: References, r: nat)
    requires |amounts| == |shares| && ids(o.source) == Some(r)
    ensures MovedFor(ShareMoves(o, shares, amounts), ids, r) == Shares.Sum(amounts)
    ensures forall p :: p in ShareMoves(o, shares, amounts) ==> DebitThenCredit(p)
  {
    if shares != [] {
      var n := |shares| - 1;
      ShareMovesMove(o, shares[..n], amounts[..n], ids, r);
      MovedForConcat(ShareMoves(o, shares[..n], amounts[..n]), [ShareMove(o, shares[n].party, amounts[n])], ids, r);
      MovedForOne(ShareMove(o, shares[n].party, amounts[n]), true, ids, r);
    }
  }

  lemma SplitMovesTheGross(x: Capture, ids: References, r: nat)
    requires x.rule.Some? ==> Shares.Split(x.amount, x.rule.value).Ok?
    requires ids(FromIntent(x.intent)) == Some(r)
    ensures MovedFor(CaptureSplit(x), ids, r) == if x.rule.Some? then x.amount else 0
    ensures forall p :: p in CaptureSplit(x) ==> DebitThenCredit(p)
  {
    if x.rule.Some? {
      var split, o := Shares.Split(x.amount, x.rule.value).value,
          OrderFor(FromIntent(x.intent), x.currency, AtCapture, false);
      ShareMovesMove(o, x.rule.value, split.shares, ids, r);
      MovedForConcat(ShareMoves(o, x.rule.value, split.shares), PlatformMove(o, AtCapture, split.platform), ids, r);
      MovedForOne(Move(o.from, AVAILABLE, split.platform, SPLIT, o.currency, o.source), split.platform > 0, ids, r);
      Shares.BeneficiaryBounds(x.amount, x.rule.value);
    }
  }

  lemma ChargeMoves(x: Capture, to: Account, amount: int, category: Category, ids: References, r: nat)
    requires ids(FromIntent(x.intent)) == Some(r)
    ensures MovedFor(Charge(x, to, amount, category), ids, r) == Max(amount, 0)
    ensures forall p :: p in Charge(x, to, amount, category) ==> DebitThenCredit(p)
  {
    MovedForOne(Move(if x.rule.Some? then AVAILABLE else COLLECTED, to, amount, category, x.currency,
                     FromIntent(x.intent)),
                amount > 0, ids, r);
  }

  lemma ChargesMove(x: Capture, plan: CapturePlan, ids: References, r: nat)
    requires ids(FromIntent(x.intent)) == Some(r) && 0 <= plan.fee && 0 <= plan.tax && 0 <= plan.reserve
    ensures MovedFor(Charges(x, plan), ids, r)
            == plan.fee + plan.tax + plan.reserve + if x.rule.None? then Max(plan.net, 0) else 0
    ensures forall p :: p in Charges(x, plan) ==> DebitThenCredit(p)
  {
    var fee, tax := Charge(x, FEES, plan.fee, FEE), Charge(x, TAX_PAYABLE, plan.tax, TAX);
    var reserve := Charge(x, RESERVE, plan.reserve, CAPTURE);
    var net := if x.rule.None? then Charge(x, AVAILABLE, plan.net, CAPTURE) else [];
    MovedForConcat(fee + tax + reserve, net, ids, r);
    MovedForConcat(fee + tax, reserve, ids, r);
    MovedForConcat(fee, tax, ids, r);
    ChargeMoves(x, FEES, plan.fee, FEE, ids, r);
    ChargeMoves(x, TAX_PAYABLE, plan.tax, TAX, ids, r);
    ChargeMoves(x, RESERVE, plan.reserve, CAPTURE, ids, r);
    ChargeMoves(x, AVAILABLE, plan.net, CAPTURE, ids, r);
  }

  lemma CapturePostingsMove(x: Capture, plan: CapturePlan, ids: References, r: nat)
    requires PlanFor(x) == Ok(plan) && ids(FromIntent(x.intent)) == Some(r)
    ensures MovedFor(CapturePostings(x, plan), ids, r) == CaptureDebits(x, plan)
    ensures forall p :: p in CapturePostings(x, plan) ==> DebitThenCredit(p)
  {
    MovedForConcat([GrossMove(x)] + CaptureSplit(x), Charges(x, plan), ids, r);
    MovedForConcat([GrossMove(x)], CaptureSplit(x), ids, r);
    MovedForOne(GrossMove(x), true, ids, r);
    SplitMovesTheGross(x, ids, r);
    ChargesMove(x, plan, ids, r);
  }

  // A capture's line is at least twice its gross, and exactly twice when nothing else is debited: with
  // a net that is not negative or, for a split capture, without charges.
  lemma CaptureLineIsTwiceTheGross(s: State, x: Capture, ids: References, r: nat)
    requires SettleCapture(s, x).Commit? && SettleCapture(s, x).value && ids(FromIntent(x.intent)) == Some(r)
    ensures PlanFor(x).Ok?
    ensures var plan, t := PlanFor(x).value, SettleCapture(s, x).state;
            && LedgerLine(t.entries, ids, r) == LedgerLine(s.entries, ids, r) + CaptureDebits(x, plan)
            && 2 * x.amount <= CaptureDebits(x, plan)
            && (CaptureDebits(x, plan) == 2 * x.amount
                <==> if x.rule.None? then 0 <= plan.net else plan.fee == plan.tax == plan.reserve == 0)
  {
    CapturePostingsMove(x, PlanFor(x).value, ids, r);
    BatchAddsWhatItMoves(s.entries, CapturePostings(x, PlanFor(x).value), ids, r);
  }

  lemma {:induction false} LineNonNegative(es: seq<Entry>, ids: References, r: nat)
    requires forall k :: 0 <= k < |es| ==> 0 <= es[k].leg.amount
    ensures 0 <= LedgerLine(es, ids, r)
  {
    if es != [] {
      var n := |es| - 1;
      assert es == es[..n] + [es[n]];
      LineNonNegative(es[..n], ids, r);
      LedgerLineSnoc(es[..n], es[n], ids, r);
    }
  }

  lemma {:induction false} LinesOnlyGrow(es: seq<Entry>, more: seq<Entry>, ids: References, r: nat)
    requires |es| <= |more| && more[..|es|] == es && forall k :: 0 <= k < |more| ==> 0 <= more[k].leg.amount
    ensures LedgerLine(es, ids, r) <= LedgerLine(more, ids, r)
  {
    if |es| == |more| {
      assert more == es;
    } else {
      var n := |more| - 1;
      LinesOnlyGrow(es, more[..n], ids, r);
      assert more == more[..n] + [more[n]];
      LedgerLineSnoc(more[..n], more[n], ids, r);
    }
  }

  // A statement that lists a capture at its gross is never MATCHED, however the ledger grows after the
  // capture: no line of that reference is EXACT.
  lemma GrossNeverMatches(s: State, x: Capture, es: seq<Entry>, ids: References, r: nat, report: ReportValue)
    requires SettleCapture(s, x).Commit? && SettleCapture(s, x).value && ids(FromIntent(x.intent)) == Some(r)
    requires LedgerInv(es)
    requires var after := SettleCapture(s, x).state.entries; |after| <= |es| && es[..|after|] == after
    requires R.SumOf(External(report.lines), r) == x.amount
    ensures var outcome := RunOn(report, RowsOf(es, ids));
            && outcome.status == UNMATCHED
            && forall k :: 0 <= k < |report.lines| && report.lines[k].reference == r ==>
                 outcome.lines[k].status != R.Exact
  {
    GrossIsExceeded(s, x, es, ids, r);
    var e, i := External(report.lines), DebitLines(RowsOf(es, ids));
    forall k | 0 <= k < |report.lines| && report.lines[k].reference == r
      ensures UpdatedLines(report.lines, e, i)[k].status != R.Exact
    {
      ExactLine(report.lines, i, k);
    }
    if r !in R.RefsOf(e) { R.AbsentSumsToZero(e, r); }
    var k :| 0 <= k < |e| && e[k].reference == r;
    MatchedExactlyWhen(report, RowsOf(es, ids));
  }

  lemma GrossIsExceeded(s: State, x: Capture, es: seq<Entry>, ids: References, r: nat)
    requires SettleCapture(s, x).Commit? && SettleCapture(s, x).value && ids(FromIntent(x.intent)) == Some(r)
    requires LedgerInv(es)
    requires var after := SettleCapture(s, x).state.entries; |after| <= |es| && es[..|after|] == after
    ensures x.amount < LedgerLine(es, ids, r) && 0 < x.amount
  {
    CaptureLineIsTwiceTheGross(s, x, ids, r);
    PostAllExtends(s.entries, CapturePostings(x, PlanFor(x).value));
    LineKeeps(s.entries, SettleCapture(s, x).state.entries, es, ids, r);
  }

  lemma LineKeeps(before: seq<Entry>, after: seq<Entry>, es: seq<Entry>, ids: References, r: nat)
    requires LedgerInv(es) && |before| <= |after| <= |es| && es[..|after|] == after && after[..|before|] == before
    ensures 0 <= LedgerLine(before, ids, r) && LedgerLine(after, ids, r) <= LedgerLine(es, ids, r)
  {
    forall k | 0 <= k < |es|
      ensures 0 <= es[k].leg.amount
    {
      AmountsNonNegative(es, k);
    }
    assert forall k :: 0 <= k < |before| ==> before[k] == after[..|before|][k] == es[..|after|][k];
    LineNonNegative(before, ids, r);
    LinesOnlyGrow(after, es, ids, r);
  }
}
