// Runs of the tenant's own transactions that show where a property its documentation promises fails.
module Counterexamples {
  import opened Prelude
  import opened Money
  import opened Ledger
  import opened Fees
  import opened Reversals
  import opened FxSettlement
  import opened Books
  import opened PayoutLedger
  import opened CaptureLedger
  import opened RefundLedger
  import opened Transactions
  import opened Runs
  import DisputeLedger
  import Movements
  import Reconciliation
  import ReconciliationRuns
  import ReconciledLedger
  import Shares

  // A capture in MAD with a flat fee, a tax rate on it and no reserve.
  function PlainCapture(intent: nat, amount: int, fee: int, taxBps: int): Capture {
    Capture(intent, amount, MAD, None, Flat(Some(fee)), NoReserve, Some(TaxSpec(taxBps, false)), None)
  }

  // The same with half of it going to party 1.
  function HalvedCapture(intent: nat, amount: int, fee: int): Capture {
    Capture(intent, amount, MAD, None, Flat(Some(fee)), NoReserve, None, Some([Shares.ShareSpec(1, 5000)]))
  }

  function Mad(s: State, a: Account): int {
    Total(BalanceOf(a, MAD), s.entries)
  }

  // ---------------------------------------------------------------------------
  // Captures and refunds of a first intent
  // ---------------------------------------------------------------------------

  // Half of 100.
  lemma HalfOfHundred()
    ensures var r := Shares.Split(100, [Shares.ShareSpec(1, 5000)]);
            r.Ok? && r.value.shares == [50] && r.value.platform == 50
  {
    var shares := [Shares.ShareSpec(1, 5000)];
    assert shares[..0] == [] && Shares.TotalBps(shares) == 5000;
    assert Shares.Beneficiary(100, shares) == 50;
    SumOfOne(Shares.Split(100, shares).value.shares);
  }

  lemma SumOfOne(xs: seq<int>)
    requires |xs| == 1
    ensures xs == [Shares.Sum(xs)]
  {
    assert xs[..0] == [];
  }

  // The table's rows carry none but these sources.
  ghost predicate OnlySources(es: seq<Entry>, sources: set<Source>) {
    forall k :: 0 <= k < |es| ==> es[k].source in sources
  }

  lemma {:induction false} SourcesPosted(es: seq<Entry>, ps: seq<Posting>, sources: set<Source>)
    requires OnlySources(es, sources) && forall p :: p in ps ==> p.source in sources
    ensures OnlySources(PostAll(es, ps), sources) && |es| <= |PostAll(es, ps)| && PostAll(es, ps)[..|es|] == es
  {
    if ps != [] {
      var n := |ps| - 1;
      assert ps[n] in ps;
      SourcesPosted(es, ps[..n], sources);
      PostEffect(NetOf(MAD), PostAll(es, ps[..n]), ps[n]);
    }
  }

  // A first capture whose refund passes its guard.
  predicate IsFirstRefundable(x: Capture, plan: CapturePlan) {
    && x.currency == MAD && x.amount > 0 && PlanFor(x) == Ok(plan)
    && GuardedAmount(x, plan) <= CaptureChange(x, plan, AVAILABLE)
    && (x.rule.Some? || plan.fee > 0 || plan.reserve > 0 || plan.net > 0)
  }

  lemma FirstCaptureThenNothing(x: Capture, plan: CapturePlan) returns (captured: State)
    requires IsFirstRefundable(x, plan)
    ensures SettleCapture(EMPTY, x) == Commit(captured, true) && CapturedThen(EMPTY, x, captured, [])
    ensures Mad(captured, AVAILABLE) == CaptureChange(x, plan, AVAILABLE) && !AlreadyRefunded(captured.entries, 0)
  {
    captured := FirstCapture(x);
    NeverRefunded(x, []);
    assert captured.entries + [] == captured.entries;
  }

  ghost predicate LeavesResidue(s: State, x: Capture, plan: CapturePlan) {
    forall a: Account :: Mad(s, a) == Residue(x, plan, a)
  }

  // Its refund, with nothing in between, leaves the residue.
  lemma RefundedAtOnce(x: Capture, plan: CapturePlan) returns (captured: State, refunded: State)
    requires IsFirstRefundable(x, plan)
    ensures SettleCapture(EMPTY, x) == Commit(captured, true)
    ensures SettleRefund(captured, x.intent, 0) == Commit(refunded, true)
    ensures LeavesResidue(refunded, x, plan)
  {
    captured := FirstCaptureThenNothing(x, plan);
    RefundAcceptedExactlyWhen(EMPTY, x, captured, [], 0);
    refunded := SettleRefund(captured, x.intent, 0).state;
    forall a: Account
      ensures Mad(refunded, a) == Residue(x, plan, a)
    {
      RefundUndoesCapture(EMPTY, x, captured, [], 0, a, MAD);
    }
  }

  // A capture of 100.00 with a fee of 1.00 and 20 % tax on it: the refund leaves the tax owed, out of
  // the cash pool.
  lemma TaxedRefundLeavesTheTax() returns (x: Capture, captured: State, refunded: State)
    ensures x == PlainCapture(0, 10000, 100, 2000) && SettleCapture(EMPTY, x) == Commit(captured, true)
    ensures SettleRefund(captured, 0, 0) == Commit(refunded, true)
    ensures Mad(refunded, TAX_PAYABLE) == 20 && Mad(refunded, CASH) == -20 && Mad(refunded, AVAILABLE) == 0
  {
    x := TaxedCapture();
    captured, refunded := LeavesTheTax(x, CapturePlan(100, 20, 0, 9880));
  }

  lemma LeavesTheTax(x: Capture, plan: CapturePlan) returns (captured: State, refunded: State)
    requires IsFirstRefundable(x, plan) && x.intent == 0 && x.rule.None? && 0 <= plan.net
    ensures SettleCapture(EMPTY, x) == Commit(captured, true) && SettleRefund(captured, 0, 0) == Commit(refunded, true)
    ensures Mad(refunded, TAX_PAYABLE) == plan.tax && Mad(refunded, CASH) == -plan.tax && Mad(refunded, AVAILABLE) == 0
  {
    captured, refunded := RefundedAtOnce(x, plan);
    ResidueIsTheTax(refunded, x, plan);
  }

  lemma ResidueIsTheTax(s: State, x: Capture, plan: CapturePlan)
    requires LeavesResidue(s, x, plan) && x.rule.None? && 0 <= plan.net
    ensures Mad(s, TAX_PAYABLE) == plan.tax && Mad(s, CASH) == -plan.tax && Mad(s, AVAILABLE) == 0
  {
  }

  lemma TaxedCapture() returns (x: Capture)
    ensures x == PlainCapture(0, 10000, 100, 2000) && IsFirstRefundable(x, CapturePlan(100, 20, 0, 9880))
  {
    x := PlainCapture(0, 10000, 100, 2000);
  }

  // A split capture of 1.00 with a fee of 0.10: the refund takes the fee from the platform a second time.
  lemma SplitRefundTakesTheFeeTwice() returns (x: Capture, captured: State, refunded: State)
    ensures x == HalvedCapture(0, 100, 10) && SettleCapture(EMPTY, x) == Commit(captured, true)
    ensures SettleRefund(captured, 0, 0) == Commit(refunded, true)
    ensures Mad(refunded, AVAILABLE) == -10 && Mad(refunded, CASH) == 10 && Mad(refunded, FEES) == 0
  {
    x := ChargedSplit();
    captured, refunded := TakesTheFeeTwice(x, CapturePlan(10, 0, 0, 40));
  }

  lemma TakesTheFeeTwice(x: Capture, plan: CapturePlan) returns (captured: State, refunded: State)
    requires IsFirstRefundable(x, plan) && x.intent == 0 && x.rule.Some? && plan.tax == plan.reserve == 0
    ensures SettleCapture(EMPTY, x) == Commit(captured, true) && SettleRefund(captured, 0, 0) == Commit(refunded, true)
    ensures Mad(refunded, AVAILABLE) == -plan.fee && Mad(refunded, CASH) == plan.fee && Mad(refunded, FEES) == 0
  {
    captured, refunded := RefundedAtOnce(x, plan);
    ResidueIsTheFee(refunded, x, plan);
  }

  lemma ResidueIsTheFee(s: State, x: Capture, plan: CapturePlan)
    requires LeavesResidue(s, x, plan) && x.rule.Some? && plan.tax == plan.reserve == 0
    ensures Mad(s, AVAILABLE) == -plan.fee && Mad(s, CASH) == plan.fee && Mad(s, FEES) == 0
  {
  }

  lemma ChargedSplit() returns (x: Capture)
    ensures x == HalvedCapture(0, 100, 10) && IsFirstRefundable(x, CapturePlan(10, 0, 0, 40))
  {
    HalfOfHundred();
    x := HalvedCapture(0, 100, 10);
  }

  // ---------------------------------------------------------------------------
  // Captures and payouts in MAD
  // ---------------------------------------------------------------------------

  // A database that satisfies its invariant and has nothing foreign to sweep.
  ghost predicate OnlyMad(s: State) {
    Inv(s) && forall c: Currency :: c != MAD ==> Total(BalanceOf(AVAILABLE, c), s.entries) == 0
  }

  lemma SweepIsIdle(s: State, rates: Rates)
    requires forall c: Currency :: c != MAD ==> Total(BalanceOf(AVAILABLE, c), s.entries) == 0
    ensures Swept(s, MAD, rates) == s
  {
    NothingToSweep(s.entries, MAD, rates, |SUPPORTED_CURRENCIES|);
  }

  // A fresh intent's capture, with what it adds to AVAILABLE.
  lemma Captures(s: State, x: Capture) returns (t: State)
    requires OnlyMad(s) && x.currency == MAD && x.amount > 0 && PlanFor(x).Ok? && !AlreadySettled(s.entries, x.intent)
    ensures SettleCapture(s, x) == Commit(t, true) && OnlyMad(t)
    ensures Mad(t, AVAILABLE) == Mad(s, AVAILABLE) + CaptureChange(x, PlanFor(x).value, AVAILABLE)
    ensures t.entries == PostAll(s.entries, CapturePostings(x, PlanFor(x).value))
    ensures t.payouts == s.payouts && t.items == s.items && t.wallets == s.wallets && t.disputes == s.disputes
  {
    t := SettleCapture(s, x).state;
    CaptureKeepsInv(s, x);
    CaptureMeaning(s, x, AVAILABLE, MAD);
    forall c: Currency | c != MAD
      ensures Total(BalanceOf(AVAILABLE, c), t.entries) == 0
    {
      CaptureMeaning(s, x, AVAILABLE, c);
    }
  }

  // A first payout.
  lemma Drafts(s: State, rates: Rates) returns (t: State)
    requires OnlyMad(s) && s.payouts == [] && Payable(s, MAD) > 0
    ensures CreatePayout(s, 0, MAD, rates) == Commit(t, 0) && OnlyMad(t)
    ensures t == Snapshot(s, 0, MAD, Payable(s, MAD)) && t.payouts == [Payout(0, Payable(s, MAD), MAD, Draft)]
    ensures t.entries == s.entries
  {
    SweepIsIdle(s, rates);
    CreatePayoutKeepsInv(s, 0, MAD, rates);
    t := Snapshot(s, 0, MAD, Payable(s, MAD));
  }

  // Paying it.
  lemma Pays(s: State) returns (t: State)
    requires OnlyMad(s) && |s.payouts| == 1 && s.payouts[0].currency == MAD && s.payouts[0].status == Draft
    requires s.payouts[0].amount <= Mad(s, AVAILABLE)
    ensures MarkPayoutPaid(s, 0) == Commit(t, ()) && OnlyMad(t)
    ensures t.payouts == [s.payouts[0].(status := Paid)] && t.items == s.items
    ensures Mad(t, AVAILABLE) == Mad(s, AVAILABLE) - s.payouts[0].amount
    ensures t.entries == PostAll(s.entries, [Settlement(0, s.payouts[0])]) && t.disputes == s.disputes
  {
    t := PaidOut(s, 0);
    PaidKeepsInv(s, 0);
    OnePosting(s.entries, Settlement(0, s.payouts[0]));
    Movements.PaymentMoves(s, 0, AVAILABLE, MAD);
    forall c: Currency | c != MAD
      ensures Total(BalanceOf(AVAILABLE, c), t.entries) == 0
    {
      Movements.PaymentMoves(s, 0, AVAILABLE, c);
    }
  }

  lemma {:induction false} NothingStranded(es: seq<Entry>, c: Currency)
    ensures Stranded(es, map[], c) == 0 && Reserved(es, map[], c) == 0
  {
    if es != [] { NothingStranded(es[..|es| - 1], c); }
  }

  // With no payout yet the whole of AVAILABLE is payable.
  lemma AllIsPayable(s: State)
    requires OnlyMad(s) && s.payouts == [] && s.items == map[]
    ensures Payable(s, MAD) == Mad(s, AVAILABLE)
  {
    NetPayable(s, MAD);
    NothingStranded(s.entries, MAD);
  }

  // ---------------------------------------------------------------------------
  // A refund that overdraws
  // ---------------------------------------------------------------------------

  // A split capture of 100 is paid out, a capture of 60 is not. Refunding the first passes the guard,
  // which sees the beneficiary's 50 alone, and takes 100 out of 60.
  lemma RefundCanOverdraw(rates: Rates)
    returns (x: Capture, y: Capture, captured: State, drafted: State, paid: State, topped: State, refunded: State)
    ensures x == HalvedCapture(0, 100, 0) && y == PlainCapture(1, 60, 0, 0)
    ensures SettleCapture(EMPTY, x) == Commit(captured, true)
    ensures CreatePayout(captured, 0, MAD, rates) == Commit(drafted, 0)
    ensures MarkPayoutPaid(drafted, 0) == Commit(paid, ())
    ensures SettleCapture(paid, y) == Commit(topped, true)
    ensures SettleRefund(topped, 0, 0) == Commit(refunded, true)
    ensures Mad(topped, AVAILABLE) == 60 && Mad(refunded, AVAILABLE) == -40
  {
    x, y := HalvedThenPlain();
    captured, drafted, paid, topped, refunded := Overdraws(x, y, rates);
  }

  // A plain capture without charges.
  predicate IsPlain(x: Capture, intent: nat, amount: int) {
    && x.intent == intent && x.amount == amount > 0 && x.currency == MAD && x.rule.None?
    && PlanFor(x) == Ok(CapturePlan(0, 0, 0, amount))
  }

  // A first split capture of 100 without charges whose first share is 50.
  predicate IsFirstSplit(x: Capture) {
    && x.intent == 0 && x.amount == 100 && x.currency == MAD && x.rule.Some?
    && PlanFor(x) == Ok(CapturePlan(0, 0, 0, 50)) && GuardedAmount(x, CapturePlan(0, 0, 0, 50)) == 50
  }

  lemma HalvedThenPlain() returns (x: Capture, y: Capture)
    ensures x == HalvedCapture(0, 100, 0) && IsFirstSplit(x)
    ensures y == PlainCapture(1, 60, 0, 0) && IsPlain(y, 1, 60)
  {
    HalfOfHundred();
    x, y := HalvedCapture(0, 100, 0), PlainCapture(1, 60, 0, 0);
  }

  lemma Overdraws(x: Capture, y: Capture, rates: Rates)
    returns (captured: State, drafted: State, paid: State, topped: State, refunded: State)
    requires IsFirstSplit(x) && IsPlain(y, 1, 60)
    ensures SettleCapture(EMPTY, x) == Commit(captured, true)
    ensures CreatePayout(captured, 0, MAD, rates) == Commit(drafted, 0)
    ensures MarkPayoutPaid(drafted, 0) == Commit(paid, ())
    ensures SettleCapture(paid, y) == Commit(topped, true)
    ensures SettleRefund(topped, 0, 0) == Commit(refunded, true)
    ensures Mad(topped, AVAILABLE) == 60 && Mad(refunded, AVAILABLE) == -40
  {
    var p: Payout;
    captured, drafted, paid, p := SplitPaidOut(x, rates);
    topped, refunded := ToppedAndRefunded(x, y, captured, paid, p);
  }

  // The second half of the run: 60 come in and 100 go out.
  lemma ToppedAndRefunded(x: Capture, y: Capture, captured: State, paid: State, p: Payout)
    returns (topped: State, refunded: State)
    requires IsFirstSplit(x) && IsPlain(y, 1, 60) && SettleCapture(EMPTY, x) == Commit(captured, true)
    requires OnlyMad(paid) && Mad(paid, AVAILABLE) == 0 && !AlreadySettled(paid.entries, 1)
    requires paid.entries == PostAll(captured.entries, [Settlement(0, p)])
    ensures SettleCapture(paid, y) == Commit(topped, true) && Mad(topped, AVAILABLE) == 60
    ensures SettleRefund(topped, 0, 0) == Commit(refunded, true) && Mad(refunded, AVAILABLE) == -40
  {
    var later: seq<Posting>;
    topped, later := TopsUp(captured.entries, paid, p, y);
    refunded := RefundsTheFirst(x, captured, topped, later);
  }

  lemma TopsUp(es: seq<Entry>, paid: State, p: Payout, y: Capture) returns (topped: State, later: seq<Posting>)
    requires IsPlain(y, 1, 60) && OnlyMad(paid) && Mad(paid, AVAILABLE) == 0 && !AlreadySettled(paid.entries, 1)
    requires paid.entries == PostAll(es, [Settlement(0, p)])
    ensures SettleCapture(paid, y) == Commit(topped, true) && Mad(topped, AVAILABLE) == 60
    ensures topped.entries == PostAll(es, later)
    ensures forall p :: p in later ==> p.source != FromIntent(0) && p.source != FromRefund(0)
  {
    topped := Captures(paid, y);
    later := PaidThenCaptured(es, p, y, CapturePlan(0, 0, 0, 60));
  }

  lemma PaidThenCaptured(es: seq<Entry>, p: Payout, y: Capture, plan: CapturePlan) returns (later: seq<Posting>)
    requires y.intent == 1
    ensures PostAll(PostAll(es, [Settlement(0, p)]), CapturePostings(y, plan)) == PostAll(es, later)
    ensures forall p :: p in later ==> p.source != FromIntent(0) && p.source != FromRefund(0)
  {
    later := [Settlement(0, p)] + CapturePostings(y, plan);
    CapturePostingsCarryTheirSource(y, plan);
    PostAllConcat(es, [Settlement(0, p)], CapturePostings(y, plan));
  }

  // The first half of the run: AVAILABLE is back at zero.
  lemma SplitPaidOut(x: Capture, rates: Rates) returns (captured: State, drafted: State, paid: State, p: Payout)
    requires IsFirstSplit(x)
    ensures SettleCapture(EMPTY, x) == Commit(captured, true)
    ensures CreatePayout(captured, 0, MAD, rates) == Commit(drafted, 0)
    ensures MarkPayoutPaid(drafted, 0) == Commit(paid, ())
    ensures OnlyMad(paid) && Mad(paid, AVAILABLE) == 0 && !AlreadySettled(paid.entries, 1)
    ensures paid.entries == PostAll(captured.entries, [Settlement(0, p)])
  {
    captured := FirstCapture(x);
    drafted, paid, p := PaysOutAll(captured, rates);
    OnlyTheFirstIntent(x, CapturePlan(0, 0, 0, 50), p);
  }

  lemma FirstCapture(x: Capture) returns (t: State)
    requires x.currency == MAD && x.amount > 0 && PlanFor(x).Ok?
    ensures SettleCapture(EMPTY, x) == Commit(t, true) && OnlyMad(t)
    ensures Mad(t, AVAILABLE) == CaptureChange(x, PlanFor(x).value, AVAILABLE)
    ensures Mad(t, RESERVE) == CaptureChange(x, PlanFor(x).value, RESERVE)
    ensures t.entries == PostAll([], CapturePostings(x, PlanFor(x).value))
    ensures t.payouts == [] && t.items == map[] && t.wallets == [] && t.disputes == []
  {
    EmptyInv();
    t := Captures(EMPTY, x);
    CaptureMeaning(EMPTY, x, RESERVE, MAD);
  }

  // A first payout takes all of AVAILABLE.
  lemma PaysOutAll(s: State, rates: Rates) returns (drafted: State, paid: State, p: Payout)
    requires OnlyMad(s) && s.payouts == [] && s.items == map[] && Mad(s, AVAILABLE) > 0
    ensures CreatePayout(s, 0, MAD, rates) == Commit(drafted, 0)
    ensures MarkPayoutPaid(drafted, 0) == Commit(paid, ())
    ensures OnlyMad(paid) && Mad(paid, AVAILABLE) == 0
    ensures paid.entries == PostAll(s.entries, [Settlement(0, p)])
  {
    AllIsPayable(s);
    drafted := Drafts(s, rates);
    p := drafted.payouts[0];
    paid := Pays(drafted);
  }

  lemma OnlyTheFirstIntent(x: Capture, plan: CapturePlan, p: Payout)
    requires x.intent == 0
    ensures var es := PostAll(PostAll([], CapturePostings(x, plan)), [Settlement(0, p)]);
            OnlySources(es, {FromIntent(0), FromPayout(0)}) && !AlreadySettled(es, 1)
  {
    CapturePostingsCarryTheirSource(x, plan);
    SourcesPosted([], CapturePostings(x, plan), {FromIntent(0), FromPayout(0)});
    SourcesPosted(PostAll([], CapturePostings(x, plan)), [Settlement(0, p)], {FromIntent(0), FromPayout(0)});
  }

  // The refund of the first capture, after postings of other sources.
  lemma RefundsTheFirst(x: Capture, captured: State, topped: State, later: seq<Posting>) returns (refunded: State)
    requires IsFirstSplit(x) && SettleCapture(EMPTY, x) == Commit(captured, true)
    requires topped.entries == PostAll(captured.entries, later) && Mad(topped, AVAILABLE) == 60
    requires forall p :: p in later ==> p.source != FromIntent(0) && p.source != FromRefund(0)
    ensures SettleRefund(topped, 0, 0) == Commit(refunded, true)
    ensures Mad(refunded, AVAILABLE) == -40
  {
    NeverRefunded(x, later);
    var since := SplitOff(captured.entries, later, FromIntent(0));
    refunded := TakesAllOfIt(x, topped, since);
  }

  // The rows a batch appends, none of them of the given source.
  lemma SplitOff(es: seq<Entry>, later: seq<Posting>, source: Source) returns (since: seq<Entry>)
    requires forall p :: p in later ==> p.source != source
    ensures PostAll(es, later) == es + since && forall e :: e in since ==> e.source != source
  {
    PostedByOthers(es, later, source);
    since := PostAll(es, later)[|es|..];
    forall e | e in since
      ensures e.source != source
    {
      var k :| 0 <= k < |since| && since[k] == e;
      assert PostAll(es, later)[|es| + k] == e;
    }
  }

  lemma TakesAllOfIt(x: Capture, topped: State, since: seq<Entry>) returns (refunded: State)
    requires IsFirstSplit(x)
    requires CapturedThen(EMPTY, x, topped, since) && !AlreadyRefunded(topped.entries, 0)
             && Mad(topped, AVAILABLE) == 60
    ensures SettleRefund(topped, 0, 0) == Commit(refunded, true)
    ensures Mad(refunded, AVAILABLE) == -40
  {
    RefundAcceptedExactlyWhen(EMPTY, x, topped, since, 0);
    RefundTakesBack(EMPTY, x, topped, since, 0, AVAILABLE, MAD);
    refunded := SettleRefund(topped, 0, 0).state;
  }

  lemma NeverRefunded(x: Capture, later: seq<Posting>)
    requires PlanFor(x).Ok? && forall p :: p in later ==> p.source != FromRefund(0)
    ensures !AlreadyRefunded(PostAll(PostAll([], CapturePostings(x, PlanFor(x).value)), later), 0)
  {
    var ps := CapturePostings(x, PlanFor(x).value);
    CapturePostingsCarryTheirSource(x, PlanFor(x).value);
    PostedByOthers([], ps, FromRefund(0));
    PostedByOthers(PostAll([], ps), later, FromRefund(0));
    var es, all := PostAll([], ps), PostAll(PostAll([], ps), later);
    assert forall k :: 0 <= k < |es| ==> all[k] == es[k];
  }

  // ---------------------------------------------------------------------------
  // A balance no payout is offered
  // ---------------------------------------------------------------------------

  // The entries of a batch carry its legs, in order.
  lemma {:induction false} LegsPosted(es: seq<Entry>, ps: seq<Posting>, k: nat)
    requires k < |ps|
    ensures |PostAll(es, ps)| == |es| + 2 * |ps|
    ensures PostAll(es, ps)[|es| + 2 * k].leg == ps[k].debit && PostAll(es, ps)[|es| + 2 * k + 1].leg == ps[k].credit
  {
    var n := |ps| - 1;
    PostAllExtends(es, ps[..n]);
    PostEffect(NetOf(MAD), PostAll(es, ps[..n]), ps[n]);
    if k < n {
      LegsPosted(es, ps[..n], k);
      assert PostAll(es, ps)[..|es| + 2 * n][|es| + 2 * k] == PostAll(es, ps)[|es| + 2 * k];
    }
  }

  lemma {:induction false} NoneUnpaid(es: seq<Entry>, items: map<nat, Item>, c: Currency)
    requires forall i :: 0 <= i < |es| ==> !Unpaid(es, items, c, i)
    ensures UnpaidCredits(es, items, c) == 0
  {
    if es != [] {
      var n := |es| - 1;
      forall i | 0 <= i < n
        ensures !Unpaid(es[..n], items, c, i)
      {
        assert !Unpaid(es, items, c, i);
      }
      NoneUnpaid(es[..n], items, c);
    }
  }

  // Entry k is the only credit of the table a payout could reserve.
  predicate OnlyCreditAt(es: seq<Entry>, c: Currency, k: nat) {
    k < |es| && forall i :: 0 <= i < |es| ==> (Unpaid(es, map[], c, i) <==> i == k)
  }

  // A snapshot reserves the only credit, in part or in full, and leaves none to reserve.
  lemma OnlyCreditIsTaken(s: State, key: nat, payable: int, k: nat)
    requires s.items == map[] && OnlyCreditAt(s.entries, MAD, k) && payable > 0
    ensures UnpaidCredits(s.entries, Snapshot(s, key, MAD, payable).items, MAD) == 0
  {
    forall i | 0 <= i < k
      ensures !Unpaid(s.entries[..k], map[], MAD, i)
    {
      assert !Unpaid(s.entries, map[], MAD, i);
    }
    NoneUnpaid(s.entries[..k], map[], MAD);
    var after := Snapshot(s, key, MAD, payable).items;
    forall i | 0 <= i < |s.entries|
      ensures !Unpaid(s.entries, after, MAD, i)
    {
      AllocationAt(s.entries, map[], MAD, payable, |s.payouts|, i);
      assert Unpaid(s.entries, map[], MAD, i) <==> i == k;
      assert s.items + Allocate(s.entries, s.items, MAD, payable, |s.payouts|) == after;
    }
    NoneUnpaid(s.entries, after, MAD);
  }

  // Granting a wallet's first balance out of AVAILABLE.
  lemma Grants(s: State, owner: nat, amount: int) returns (created: State, granted: State)
    requires OnlyMad(s) && s.wallets == [] && amount > 0
    ensures CreateWallet(s, owner, MAD) == Commit(created, 0) && AdjustWallet(created, 0, amount) == Commit(granted, ())
    ensures OnlyMad(granted) && Mad(granted, AVAILABLE) == Mad(s, AVAILABLE) - amount
    ensures granted.payouts == s.payouts && granted.items == s.items
    ensures granted.entries == PostAll(s.entries, [Move(AVAILABLE, WALLET, amount, ADJUSTMENT, MAD, FromWallet(0))])
  {
    created := CreateWallet(s, owner, MAD).state;
    granted := AdjustWallet(created, 0, amount).state;
    CreateWalletKeepsInv(s, owner, MAD);
    AdjustKeepsInv(created, 0, amount);
    forall c: Currency { Movements.AdjustmentMoves(created, 0, amount, AVAILABLE, c); }
  }

  // Its postings and the grant's: the capture's net is the only AVAILABLE credit.
  lemma GrantedTable(x: Capture, amount: int)
    requires IsPlain(x, 0, x.amount)
    ensures var grant := Move(AVAILABLE, WALLET, amount, ADJUSTMENT, MAD, FromWallet(0));
            var es := PostAll(PostAll([], CapturePostings(x, PlanFor(x).value)), [grant]);
            && OnlyCreditAt(es, MAD, 3) && OnlySources(es, {FromIntent(0), FromWallet(0), FromPayout(0)})
            && Total(OtherDebitsOf(MAD), es) == amount
  {
    var p, q := GrossMove(x), Move(COLLECTED, AVAILABLE, x.amount, CAPTURE, MAD, FromIntent(0));
    var grant := Move(AVAILABLE, WALLET, amount, ADJUSTMENT, MAD, FromWallet(0));
    assert CapturePostings(x, PlanFor(x).value) == [p, q];
    PostAllConcat([], [p, q], [grant]);
    assert [p, q] + [grant] == [p, q, grant];
    ThirdIsTheCredit(p, q, grant);
    SourcesPosted([], [p, q, grant], {FromIntent(0), FromWallet(0), FromPayout(0)});
    PostAllEffect(OtherDebitsOf(MAD), PostAll([], [p, q]), [grant]);
    EffectsOfOne(OtherDebitsOf(MAD), grant);
    Untouched(OtherDebitsOf(MAD), [], [p, q]);
  }

  lemma ThirdIsTheCredit(p: Posting, q: Posting, r: Posting)
    requires p.debit.account != AVAILABLE && p.credit.account != AVAILABLE && q.debit.account != AVAILABLE
    requires q.credit == CreditLeg(AVAILABLE, q.credit.amount, CAPTURE, None, MAD)
    requires r.debit.direction == DEBIT && r.credit.account != AVAILABLE
    ensures OnlyCreditAt(PostAll([], [p, q, r]), MAD, 3)
  {
    LegsPosted([], [p, q, r], 0);
    LegsPosted([], [p, q, r], 1);
    LegsPosted([], [p, q, r], 2);
  }

  // A capture of 100 of which 40 went to a wallet is paid out, 60 against the one credit of 100. After a
  // second capture of 30 AVAILABLE holds 30 and no payout is open, but the 40 counts against the new
  // credit once more and no payout is offered.
  lemma GrantIsSubtractedTwice(rates: Rates)
    returns (x: Capture, y: Capture, captured: State, created: State, granted: State, drafted: State, paid: State,
             topped: State)
    ensures x == PlainCapture(0, 100, 0, 0) && y == PlainCapture(1, 30, 0, 0)
    ensures SettleCapture(EMPTY, x) == Commit(captured, true)
    ensures CreateWallet(captured, 0, MAD) == Commit(created, 0) && AdjustWallet(created, 0, 40) == Commit(granted, ())
    ensures CreatePayout(granted, 0, MAD, rates) == Commit(drafted, 0) && MarkPayoutPaid(drafted, 0) == Commit(paid, ())
    ensures SettleCapture(paid, y) == Commit(topped, true)
    ensures Mad(topped, AVAILABLE) == 30 && forall p :: p in topped.payouts ==> p.status == Paid
    ensures CreatePayout(topped, 1, MAD, rates) == Abort(NoEligibleFunds)
  {
    x, y := TwoPlain();
    captured, created, granted, drafted, paid, topped := Strands(x, y, rates);
  }

  lemma TwoPlain() returns (x: Capture, y: Capture)
    ensures x == PlainCapture(0, 100, 0, 0) && IsPlain(x, 0, 100)
    ensures y == PlainCapture(1, 30, 0, 0) && IsPlain(y, 1, 30)
  {
    x, y := PlainCapture(0, 100, 0, 0), PlainCapture(1, 30, 0, 0);
  }

  lemma Strands(x: Capture, y: Capture, rates: Rates)
    returns (captured: State, created: State, granted: State, drafted: State, paid: State, topped: State)
    requires IsPlain(x, 0, 100) && IsPlain(y, 1, 30)
    ensures SettleCapture(EMPTY, x) == Commit(captured, true)
    ensures CreateWallet(captured, 0, MAD) == Commit(created, 0) && AdjustWallet(created, 0, 40) == Commit(granted, ())
    ensures CreatePayout(granted, 0, MAD, rates) == Commit(drafted, 0) && MarkPayoutPaid(drafted, 0) == Commit(paid, ())
    ensures SettleCapture(paid, y) == Commit(topped, true)
    ensures Mad(topped, AVAILABLE) == 30 && forall p :: p in topped.payouts ==> p.status == Paid
    ensures CreatePayout(topped, 1, MAD, rates) == Abort(NoEligibleFunds)
  {
    captured, created, granted := GrantsAfterCapture(x);
    drafted, paid := PaysOutThePart(granted, rates);
    topped := NothingIsOffered(paid, y, rates);
  }

  // What is left after a grant of 40: one credit of 100 and debits of 40.
  ghost predicate OneCreditLess(s: State) {
    && OnlyMad(s) && s.payouts == [] && s.items == map[] && Mad(s, AVAILABLE) == 60
    && Total(OtherDebitsOf(MAD), s.entries) == 40
    && OnlyCreditAt(s.entries, MAD, 3) && OnlySources(s.entries, {FromIntent(0), FromWallet(0), FromPayout(0)})
  }

  lemma GrantsAfterCapture(x: Capture) returns (captured: State, created: State, granted: State)
    requires IsPlain(x, 0, 100)
    ensures SettleCapture(EMPTY, x) == Commit(captured, true)
    ensures CreateWallet(captured, 0, MAD) == Commit(created, 0) && AdjustWallet(created, 0, 40) == Commit(granted, ())
    ensures OneCreditLess(granted)
  {
    captured := FirstCapture(x);
    created, granted := Grants(captured, 0, 40);
    GrantedTable(x, 40);
  }

  // The payout of the 60 is against the credit of 100, and strands 40 of it.
  ghost predicate FortyStranded(s: State) {
    && OnlyMad(s) && s.payouts == [Payout(0, 60, MAD, Paid)] && Stranded(s.entries, s.items, MAD) == 40
  }

  lemma PaysOutThePart(s: State, rates: Rates) returns (drafted: State, paid: State)
    requires OneCreditLess(s)
    ensures CreatePayout(s, 0, MAD, rates) == Commit(drafted, 0) && MarkPayoutPaid(drafted, 0) == Commit(paid, ())
    ensures FortyStranded(paid) && Mad(paid, AVAILABLE) == 0 && !AlreadySettled(paid.entries, 1)
  {
    AllIsPayable(s);
    drafted := DraftsThePart(s, rates);
    paid := PaysTheDraft(drafted);
  }

  lemma PaysTheDraft(s: State) returns (paid: State)
    requires OnlyMad(s) && s.payouts == [Payout(0, 60, MAD, Draft)] && Mad(s, AVAILABLE) == 60
    requires Stranded(s.entries, s.items, MAD) == 40
    requires OnlySources(s.entries, {FromIntent(0), FromWallet(0), FromPayout(0)})
    ensures MarkPayoutPaid(s, 0) == Commit(paid, ())
    ensures FortyStranded(paid) && Mad(paid, AVAILABLE) == 0 && !AlreadySettled(paid.entries, 1)
  {
    paid := Pays(s);
    SourcesPosted(s.entries, [Settlement(0, s.payouts[0])], {FromIntent(0), FromWallet(0), FromPayout(0)});
    OtherIntentIsNew(paid.entries);
    StrandedStays(s, paid);
  }

  lemma OtherIntentIsNew(es: seq<Entry>)
    requires OnlySources(es, {FromIntent(0), FromWallet(0), FromPayout(0)})
    ensures !AlreadySettled(es, 1)
  {
  }

  lemma DraftsThePart(s: State, rates: Rates) returns (drafted: State)
    requires OneCreditLess(s) && Payable(s, MAD) == 60
    ensures CreatePayout(s, 0, MAD, rates) == Commit(drafted, 0) && OnlyMad(drafted) && drafted.entries == s.entries
    ensures drafted.payouts == [Payout(0, 60, MAD, Draft)] && Stranded(drafted.entries, drafted.items, MAD) == 40
  {
    drafted := Drafts(s, rates);
    OnlyCreditIsTaken(s, 0, 60, 3);
    NetPayable(drafted, MAD);
  }

  lemma StrandedStays(s: State, t: State)
    requires PayoutInv(s) && t.items == s.items && |s.entries| <= |t.entries| && t.entries[..|s.entries|] == s.entries
    ensures Stranded(t.entries, t.items, MAD) == Stranded(s.entries, s.items, MAD)
  {
    assert forall i :: i in s.items ==> GoodItem(s, i);
    ReservedExtends(s.entries, t.entries, s.items, MAD);
  }

  lemma NothingIsOffered(paid: State, y: Capture, rates: Rates) returns (topped: State)
    requires FortyStranded(paid) && Mad(paid, AVAILABLE) == 0 && !AlreadySettled(paid.entries, 1) && IsPlain(y, 1, 30)
    ensures SettleCapture(paid, y) == Commit(topped, true)
    ensures Mad(topped, AVAILABLE) == 30 && forall p :: p in topped.payouts ==> p.status == Paid
    ensures CreatePayout(topped, 1, MAD, rates) == Abort(NoEligibleFunds)
  {
    topped := Captures(paid, y);
    PostAllExtends(paid.entries, CapturePostings(y, PlanFor(y).value));
    StrandedStays(paid, topped);
    ThirtyIsTooLittle(topped, rates);
  }

  lemma ThirtyIsTooLittle(s: State, rates: Rates)
    requires FortyStranded(s) && Mad(s, AVAILABLE) == 30
    ensures CreatePayout(s, 1, MAD, rates) == Abort(NoEligibleFunds)
  {
    NetPayable(s, MAD);
    SweepIsIdle(s, rates);
  }

  // ---------------------------------------------------------------------------
  // A statement that does not reconcile
  // ---------------------------------------------------------------------------

  // A report not yet run, of one statement line.
  function Listing(reference: nat, cents: int): ReconciliationRuns.ReportValue {
    var line := ReconciliationRuns.ReportLine(reference, cents, Reconciliation.UnmatchedLine, None, None);
    ReconciliationRuns.ReportValue(ReconciliationRuns.PENDING, [line], None)
  }

  // A capture of 100 without charges is a line of 200, and a statement that lists it at 100 is UNMATCHED.
  lemma CaptureIsReconciledTwice(ids: ReconciledLedger.References) returns (x: Capture, captured: State)
    requires ids(FromIntent(0)) == Some(0)
    ensures x == PlainCapture(0, 100, 0, 0) && SettleCapture(EMPTY, x) == Commit(captured, true)
    ensures ReconciledLedger.LedgerLine(captured.entries, ids, 0) == 200
    ensures ReconciliationRuns.RunOn(Listing(0, 100), ReconciledLedger.RowsOf(captured.entries, ids)).status
            == ReconciliationRuns.UNMATCHED
  {
    x := PlainOfHundred();
    captured := LineOfTwoHundred(x, ids);
    HundredIsUnmatched(x, captured, ids);
  }

  lemma LineOfTwoHundred(x: Capture, ids: ReconciledLedger.References) returns (captured: State)
    requires IsPlain(x, 0, 100) && ids(FromIntent(0)) == Some(0)
    ensures SettleCapture(EMPTY, x) == Commit(captured, true) && LedgerInv(captured.entries)
    ensures ReconciledLedger.LedgerLine(captured.entries, ids, 0) == 200
  {
    captured := FirstCapture(x);
    ReconciledLedger.CaptureLineIsTwiceTheGross(EMPTY, x, ids, 0);
  }

  lemma HundredIsUnmatched(x: Capture, captured: State, ids: ReconciledLedger.References)
    requires IsPlain(x, 0, 100) && ids(FromIntent(0)) == Some(0)
    requires SettleCapture(EMPTY, x) == Commit(captured, true) && LedgerInv(captured.entries)
    ensures ReconciliationRuns.RunOn(Listing(0, 100), ReconciledLedger.RowsOf(captured.entries, ids)).status
            == ReconciliationRuns.UNMATCHED
  {
    SumOfOneLine(Listing(0, 100));
    ReconciledLedger.GrossNeverMatches(EMPTY, x, captured.entries, ids, 0, Listing(0, 100));
  }

  lemma PlainOfHundred() returns (x: Capture)
    ensures x == PlainCapture(0, 100, 0, 0) && IsPlain(x, 0, 100)
  {
    x := PlainCapture(0, 100, 0, 0);
  }

  lemma SumOfOneLine(report: ReconciliationRuns.ReportValue)
    requires |report.lines| == 1
    ensures Reconciliation.SumOf(ReconciliationRuns.External(report.lines), report.lines[0].reference)
            == report.lines[0].cents
  {
    assert ReconciliationRuns.External(report.lines)[..0] == [];
  }

  // ---------------------------------------------------------------------------
  // A cancellation that comes too late
  // ---------------------------------------------------------------------------

  // A payout of 100 is paid between a cancellation's status check and its transaction. It ends CANCELLED
  // with 100 in PAID_OUT, and its credit is offered again with nothing left in AVAILABLE.
  lemma LateCancelOffersThePaid(rates: Rates)
    returns (x: Capture, captured: State, drafted: State, paid: State, dropped: State, again: State)
    ensures x == PlainCapture(0, 100, 0, 0) && SettleCapture(EMPTY, x) == Commit(captured, true)
    ensures CreatePayout(captured, 0, MAD, rates) == Commit(drafted, 0) && CancelPayout(drafted, 0).Commit?
    ensures MarkPayoutPaid(drafted, 0) == Commit(paid, ()) && dropped == Dropped(paid, 0, Cancelled)
    ensures Mad(dropped, PAID_OUT) == 100 && Mad(dropped, AVAILABLE) == 0 && dropped.payouts[0].status == Cancelled
    ensures CreatePayout(dropped, 1, MAD, rates) == Commit(again, 1) && again.payouts[1].amount == 100
  {
    x := PlainOfHundred();
    captured := FirstCapture(x);
    drafted, paid := PaysTheHundred(captured, rates);
    dropped, again := OffersItAgain(paid, rates);
  }

  lemma PaysTheHundred(s: State, rates: Rates) returns (drafted: State, paid: State)
    requires OnlyMad(s) && s.payouts == [] && s.items == map[] && Mad(s, AVAILABLE) == 100
    ensures CreatePayout(s, 0, MAD, rates) == Commit(drafted, 0) && CancelPayout(drafted, 0).Commit?
    ensures MarkPayoutPaid(drafted, 0) == Commit(paid, ())
    ensures OnlyMad(paid) && Mad(paid, AVAILABLE) == 0 && paid.payouts == [Payout(0, 100, MAD, Paid)]
  {
    AllIsPayable(s);
    drafted := Drafts(s, rates);
    paid := Pays(drafted);
  }

  lemma OffersItAgain(paid: State, rates: Rates) returns (dropped: State, again: State)
    requires OnlyMad(paid) && Mad(paid, AVAILABLE) == 0 && paid.payouts == [Payout(0, 100, MAD, Paid)]
    ensures dropped == Dropped(paid, 0, Cancelled)
    ensures Mad(dropped, PAID_OUT) == 100 && Mad(dropped, AVAILABLE) == 0 && dropped.payouts[0].status == Cancelled
    ensures CreatePayout(dropped, 1, MAD, rates) == Commit(again, 1) && again.payouts[1].amount == 100
  {
    dropped := Dropped(paid, 0, Cancelled);
    ReleasedAll(paid);
    HundredPaid(paid.payouts);
    PayableWithoutItems(dropped);
    SweepIsIdle(dropped, rates);
    again := Snapshot(dropped, 1, MAD, 100);
  }

  lemma ReleasedAll(s: State)
    requires PayoutInv(s) && |s.payouts| == 1
    ensures Release(s.items, 0) == map[]
  {
    assert forall i :: i in s.items ==> GoodItem(s, i);
  }

  lemma HundredPaid(payouts: seq<Payout>)
    requires payouts == [Payout(0, 100, MAD, Paid)]
    ensures PayoutSum(payouts, MAD, {Paid}) == 100
  {
    assert payouts[..0] == [];
  }

  // Without items everything but the debits is payable, paid out or not.
  lemma PayableWithoutItems(s: State)
    requires s.items == map[]
    ensures Payable(s, MAD) == Mad(s, AVAILABLE) + Total(PayoutDebitsOf(MAD), s.entries)
  {
    AvailableDecomposes(s.entries, MAD);
    CreditsDecompose(s.entries, map[], MAD);
    NothingStranded(s.entries, MAD);
  }

  // ---------------------------------------------------------------------------
  // Disputes
  // ---------------------------------------------------------------------------

  // A capture in MAD without charges that holds part of the gross in reserve.
  function HeldCapture(intent: nat, amount: int, reserve: nat): Capture {
    Capture(intent, amount, MAD, None, Flat(None), FixedReserve(Some(reserve)), None, None)
  }

  lemma Disputes(s: State, amount: int) returns (t: State)
    requires OnlyMad(s) && forall d :: d in s.disputes ==> d.providerId != |s.disputes|
    ensures CreateDispute(s, |s.disputes|, amount, MAD) == Commit(t, |s.disputes|) && OnlyMad(t)
    ensures t == s.(disputes := s.disputes + [Dispute(|s.disputes|, amount, MAD, Open)])
  {
    t := CreateDispute(s, |s.disputes|, amount, MAD).state;
    CreateDisputeKeepsInv(s, |s.disputes|, amount, MAD);
  }

  // Losing the first dispute, by the parts the policy allots.
  lemma Loses(s: State, policy: FundingPolicy, a: Allocation) returns (t: State)
    requires |s.disputes| > 0 && s.disputes[0].currency == MAD && s.disputes[0].status == Open
    requires LossAllocation(s, 0, policy) == Ok(a)
    ensures ResolveLost(s, 0, policy) == Commit(t, ()) && t == ClawedBack(s, 0, a)
    ensures Mad(t, AVAILABLE) == Mad(s, AVAILABLE) - a.fromAvailable
            && Mad(t, RESERVE) == Mad(s, RESERVE) - a.fromReserve
  {
    t := ClawedBack(s, 0, a);
    Movements.LossMoves(s, 0, policy, AVAILABLE, MAD);
    Movements.LossMoves(s, 0, policy, RESERVE, MAD);
  }

  // A capture of 100 with 40 in reserve, a dispute of 40 lost out of the reserve, and the refund of the
  // capture: the guard sees the net of 60, and the reserve of 40 is taken a second time.
  lemma RefundCanOverdrawReserve()
    returns (x: Capture, captured: State, disputed: State, lost: State, refunded: State)
    ensures x == HeldCapture(0, 100, 40) && SettleCapture(EMPTY, x) == Commit(captured, true)
    ensures CreateDispute(captured, 0, 40, MAD) == Commit(disputed, 0)
    ensures ResolveLost(disputed, 0, DebitReserve) == Commit(lost, ())
    ensures SettleRefund(lost, 0, 0) == Commit(refunded, true)
    ensures Mad(lost, RESERVE) == 0 && Mad(refunded, RESERVE) == -40
  {
    x := HundredHeld();
    captured, disputed, lost := LosesTheReserve(x);
    refunded := RefundsTheHeld(x, captured, lost);
  }

  predicate IsHeld(x: Capture) {
    && x.intent == 0 && x.amount == 100 && x.currency == MAD && x.rule.None?
    && PlanFor(x) == Ok(CapturePlan(0, 0, 40, 60))
  }

  lemma HundredHeld() returns (x: Capture)
    ensures x == HeldCapture(0, 100, 40) && IsHeld(x)
  {
    x := HeldCapture(0, 100, 40);
  }

  lemma LosesTheReserve(x: Capture) returns (captured: State, disputed: State, lost: State)
    requires IsHeld(x)
    ensures SettleCapture(EMPTY, x) == Commit(captured, true)
    ensures CreateDispute(captured, 0, 40, MAD) == Commit(disputed, 0)
    ensures ResolveLost(disputed, 0, DebitReserve) == Commit(lost, ())
    ensures lost.entries == PostAll(captured.entries, [Move(RESERVE, CASH, 40, CHARGEBACK, MAD, FromDispute(0))])
    ensures Mad(lost, RESERVE) == 0 && Mad(lost, AVAILABLE) == 60
  {
    captured := FirstCapture(x);
    disputed, lost := LosesForty(captured);
  }

  lemma LosesForty(s: State) returns (disputed: State, lost: State)
    requires OnlyMad(s) && s.disputes == [] && Mad(s, RESERVE) == 40 && Mad(s, AVAILABLE) == 60
    ensures CreateDispute(s, 0, 40, MAD) == Commit(disputed, 0)
    ensures ResolveLost(disputed, 0, DebitReserve) == Commit(lost, ())
    ensures lost.entries == PostAll(s.entries, [Move(RESERVE, CASH, 40, CHARGEBACK, MAD, FromDispute(0))])
    ensures Mad(lost, RESERVE) == 0 && Mad(lost, AVAILABLE) == 60
  {
    disputed := Disputes(s, 40);
    lost := Loses(disputed, DebitReserve, Allocation(0, 40, 0));
    assert ClawbackPostings(0, MAD, Allocation(0, 40, 0)) == [Move(RESERVE, CASH, 40, CHARGEBACK, MAD, FromDispute(0))];
  }

  lemma RefundsTheHeld(x: Capture, captured: State, lost: State) returns (refunded: State)
    requires IsHeld(x) && SettleCapture(EMPTY, x) == Commit(captured, true)
    requires lost.entries == PostAll(captured.entries, [Move(RESERVE, CASH, 40, CHARGEBACK, MAD, FromDispute(0))])
    requires Mad(lost, RESERVE) == 0 && Mad(lost, AVAILABLE) == 60
    ensures SettleRefund(lost, 0, 0) == Commit(refunded, true) && Mad(refunded, RESERVE) == -40
  {
    var later := [Move(RESERVE, CASH, 40, CHARGEBACK, MAD, FromDispute(0))];
    NeverRefunded(x, later);
    var since := SplitOff(captured.entries, later, FromIntent(0));
    refunded := TakesTheReserve(x, lost, since);
  }

  lemma TakesTheReserve(x: Capture, lost: State, since: seq<Entry>) returns (refunded: State)
    requires IsHeld(x) && CapturedThen(EMPTY, x, lost, since) && !AlreadyRefunded(lost.entries, 0)
    requires Mad(lost, RESERVE) == 0 && Mad(lost, AVAILABLE) == 60
    ensures SettleRefund(lost, 0, 0) == Commit(refunded, true) && Mad(refunded, RESERVE) == -40
  {
    RefundAcceptedExactlyWhen(EMPTY, x, lost, since, 0);
    RefundTakesBack(EMPTY, x, lost, since, 0, RESERVE, MAD);
    refunded := SettleRefund(lost, 0, 0).state;
  }

  // A capture of 60, a dispute of 100 lost under ALLOW_NEGATIVE: AVAILABLE is at -40, and a dispute of 1
  // cannot be lost under any policy.
  lemma NegativeLossBlocksTheNext(policy: FundingPolicy)
    returns (x: Capture, captured: State, first: State, second: State, lost: State)
    ensures x == PlainCapture(0, 60, 0, 0) && SettleCapture(EMPTY, x) == Commit(captured, true)
    ensures CreateDispute(captured, 0, 100, MAD) == Commit(first, 0)
    ensures CreateDispute(first, 1, 1, MAD) == Commit(second, 1)
    ensures ResolveLost(second, 0, AllowNegative) == Commit(lost, ()) && Mad(lost, AVAILABLE) == -40
    ensures ResolveLost(lost, 1, policy) == Abort(NegativeBalance)
  {
    x := PlainOfSixty();
    captured := FirstPlain(x, 60);
    first, second, lost := LosesIntoTheRed(captured, policy);
  }

  lemma PlainOfSixty() returns (x: Capture)
    ensures x == PlainCapture(0, 60, 0, 0) && IsPlain(x, 0, 60)
  {
    x := PlainCapture(0, 60, 0, 0);
  }

  lemma LosesIntoTheRed(s: State, policy: FundingPolicy) returns (first: State, second: State, lost: State)
    requires OnlyMad(s) && s.disputes == [] && Mad(s, AVAILABLE) == 60 && Mad(s, RESERVE) == 0
    ensures CreateDispute(s, 0, 100, MAD) == Commit(first, 0) && CreateDispute(first, 1, 1, MAD) == Commit(second, 1)
    ensures ResolveLost(second, 0, AllowNegative) == Commit(lost, ()) && Mad(lost, AVAILABLE) == -40
    ensures ResolveLost(lost, 1, policy) == Abort(NegativeBalance)
  {
    first := Disputes(s, 100);
    second := Disputes(first, 1);
    lost := Loses(second, AllowNegative, Allocation(100, 0, 0));
    RefusesTheNext(lost, 1, policy);
  }

  lemma RefusesTheNext(s: State, id: nat, policy: FundingPolicy)
    requires id < |s.disputes| && s.disputes[id].status == Open && s.disputes[id].currency == MAD
             && Mad(s, AVAILABLE) < 0
    ensures ResolveLost(s, id, policy) == Abort(NegativeBalance)
  {
  }

  // The funding of a dispute of 60 is decided while AVAILABLE holds 100. The 100 are paid out before the
  // clawback, which then takes 60 out of nothing, although the policy never overdraws.
  lemma LateLossOverdraws(rates: Rates)
    returns (x: Capture, captured: State, disputed: State, drafted: State, paid: State, a: Allocation, lost: State)
    ensures x == PlainCapture(0, 100, 0, 0) && SettleCapture(EMPTY, x) == Commit(captured, true)
    ensures CreateDispute(captured, 0, 60, MAD) == Commit(disputed, 0)
    ensures CreatePayout(disputed, 0, MAD, rates) == Commit(drafted, 0)
    ensures LossAllocation(drafted, 0, NetFromAvailable) == Ok(a)
    ensures MarkPayoutPaid(drafted, 0) == Commit(paid, ()) && |paid.disputes| == 1 && lost == ClawedBack(paid, 0, a)
    ensures Mad(lost, AVAILABLE) == -60
  {
    x := PlainOfHundred();
    captured := FirstPlain(x, 100);
    disputed, drafted, paid, a, lost := DisputesThenPays(captured, rates);
  }

  lemma FirstPlain(x: Capture, amount: int) returns (t: State)
    requires IsPlain(x, 0, amount)
    ensures SettleCapture(EMPTY, x) == Commit(t, true) && OnlyMad(t)
    ensures Mad(t, AVAILABLE) == amount && Mad(t, RESERVE) == 0
    ensures t.payouts == [] && t.items == map[] && t.disputes == []
  {
    t := FirstCapture(x);
  }

  lemma DisputesThenPays(s: State, rates: Rates)
    returns (disputed: State, drafted: State, paid: State, a: Allocation, lost: State)
    requires OnlyMad(s) && s.payouts == [] && s.items == map[] && s.disputes == []
    requires Mad(s, AVAILABLE) == 100 && Mad(s, RESERVE) == 0
    ensures CreateDispute(s, 0, 60, MAD) == Commit(disputed, 0)
    ensures CreatePayout(disputed, 0, MAD, rates) == Commit(drafted, 0)
    ensures LossAllocation(drafted, 0, NetFromAvailable) == Ok(a)
    ensures MarkPayoutPaid(drafted, 0) == Commit(paid, ()) && |paid.disputes| == 1 && lost == ClawedBack(paid, 0, a)
    ensures Mad(lost, AVAILABLE) == -60
  {
    disputed := Disputes(s, 60);
    drafted, paid, a, lost := DecidesThenPays(disputed, rates);
  }

  lemma DecidesThenPays(s: State, rates: Rates) returns (drafted: State, paid: State, a: Allocation, lost: State)
    requires OnlyMad(s) && s.payouts == [] && s.items == map[] && s.disputes == [Dispute(0, 60, MAD, Open)]
    requires Mad(s, AVAILABLE) == 100 && Mad(s, RESERVE) == 0
    ensures CreatePayout(s, 0, MAD, rates) == Commit(drafted, 0)
    ensures LossAllocation(drafted, 0, NetFromAvailable) == Ok(a)
    ensures MarkPayoutPaid(drafted, 0) == Commit(paid, ()) && |paid.disputes| == 1 && lost == ClawedBack(paid, 0, a)
    ensures Mad(lost, AVAILABLE) == -60
  {
    drafted, paid, a := PaidWhileDeciding(s, rates);
    lost := ClawedBack(paid, 0, a);
    DisputeLedger.ClawbackMoves(paid, 0, a);
  }

  lemma PaidWhileDeciding(s: State, rates: Rates) returns (drafted: State, paid: State, a: Allocation)
    requires OnlyMad(s) && s.payouts == [] && s.items == map[] && s.disputes == [Dispute(0, 60, MAD, Open)]
    requires Mad(s, AVAILABLE) == 100 && Mad(s, RESERVE) == 0
    ensures CreatePayout(s, 0, MAD, rates) == Commit(drafted, 0)
    ensures LossAllocation(drafted, 0, NetFromAvailable) == Ok(a) && a == Allocation(60, 0, 0)
    ensures MarkPayoutPaid(drafted, 0) == Commit(paid, ()) && paid.disputes == s.disputes && Mad(paid, AVAILABLE) == 0
  {
    AllIsPayable(s);
    drafted := Drafts(s, rates);
    paid := Pays(drafted);
    a := Allocation(60, 0, 0);
  }
}
