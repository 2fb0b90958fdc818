// What a settled capture does to every account, and to the beneficiaries of a split.
module CaptureLedger {
  import opened Prelude
  import opened Money
  import opened Ledger
  import opened Fees
  import opened FxSettlement
  import opened Books
  import opened SplitLedger
  import Shares

  lemma {:induction false} ShareMovesBalance(o: SplitOrder, shares: seq<Shares.ShareSpec>, amounts: seq<int>,
                                             a: Account, c: Currency)
    requires |amounts| == |shares|
    ensures Effects(BalanceOf(a, c), ShareMoves(o, shares, amounts))
            == if c != o.currency then 0
               else (if a == o.to then Shares.Sum(amounts) else 0) - (if a == o.from then Shares.Sum(amounts) else 0)
  {
    if shares != [] {
      var n := |shares| - 1;
      ShareMovesBalance(o, shares[..n], amounts[..n], a, c);
      EffectsConcat(BalanceOf(a, c), ShareMoves(o, shares[..n], amounts[..n]),
                    [ShareMove(o, shares[n].party, amounts[n])]);
      EffectsOfOne(BalanceOf(a, c), ShareMove(o, shares[n].party, amounts[n]));
    }
  }

  lemma OptionalEffect(q: Query, p: Posting, present: bool)
    ensures Effects(q, if present then [p] else []) == if present then Effect(q, p) else 0
  {
    EffectsOfOne(q, p);
  }

  // Where the charges of a capture are taken from.
  function ChargeFrom(x: Capture): Account {
    if x.rule.Some? then AVAILABLE else COLLECTED
  }

  lemma ChargeEffect(x: Capture, to: Account, amount: int, category: Category, a: Account, c: Currency)
    ensures Effects(BalanceOf(a, c), Charge(x, to, amount, category))
            == if c != x.currency || amount <= 0 then 0
               else (if a == to then amount else 0) - (if a == ChargeFrom(x) then amount else 0)
  {
    OptionalEffect(BalanceOf(a, c), Move(ChargeFrom(x), to, amount, category, x.currency, FromIntent(x.intent)),
                   amount > 0);
  }

  lemma EffectsOfFour(q: Query, a: seq<Posting>, b: seq<Posting>, c: seq<Posting>, d: seq<Posting>)
    ensures Effects(q, a + b + c + d) == Effects(q, a) + Effects(q, b) + Effects(q, c) + Effects(q, d)
  {
    EffectsConcat(q, a + b + c, d);
    EffectsConcat(q, a + b, c);
    EffectsConcat(q, a, b);
  }

  lemma ChargesEffect(x: Capture, plan: CapturePlan, a: Account, c: Currency)
    requires 0 <= plan.fee && 0 <= plan.tax && 0 <= plan.reserve
    ensures var net := if x.rule.None? then Max(plan.net, 0) else 0;
            Effects(BalanceOf(a, c), Charges(x, plan))
            == if c != x.currency then 0
               else (if a == FEES then plan.fee else 0) + (if a == TAX_PAYABLE then plan.tax else 0)
                    + (if a == RESERVE then plan.reserve else 0) + (if a == AVAILABLE then net else 0)
                    - (if a == ChargeFrom(x) then plan.fee + plan.tax + plan.reserve + net else 0)
  {
    EffectsOfFour(BalanceOf(a, c), Charge(x, FEES, plan.fee, FEE), Charge(x, TAX_PAYABLE, plan.tax, TAX),
                  Charge(x, RESERVE, plan.reserve, CAPTURE),
                  if x.rule.None? then Charge(x, AVAILABLE, plan.net, CAPTURE) else []);
    ChargeEffect(x, FEES, plan.fee, FEE, a, c);
    ChargeEffect(x, TAX_PAYABLE, plan.tax, TAX, a, c);
    ChargeEffect(x, RESERVE, plan.reserve, CAPTURE, a, c);
    ChargeEffect(x, AVAILABLE, plan.net, CAPTURE, a, c);
  }

  // The split of a capture moves the whole gross from COLLECTED to AVAILABLE.
  lemma CaptureSplitEffect(x: Capture, a: Account, c: Currency)
    requires x.rule.Some? && Shares.Split(x.amount, x.rule.value).Ok?
    ensures Effects(BalanceOf(a, c), CaptureSplit(x))
            == if c != x.currency then 0
               else (if a == AVAILABLE then x.amount else 0) - (if a == COLLECTED then x.amount else 0)
  {
    var shares, r := x.rule.value, Shares.Split(x.amount, x.rule.value).value;
    var o := OrderFor(FromIntent(x.intent), x.currency, AtCapture, false);
    EffectsConcat(BalanceOf(a, c), ShareMoves(o, shares, r.shares), PlatformMove(o, AtCapture, r.platform));
    ShareMovesBalance(o, shares, r.shares, a, c);
    OptionalEffect(BalanceOf(a, c), Move(o.from, AVAILABLE, r.platform, SPLIT, o.currency, o.source), r.platform > 0);
  }

  // The change of every balance: CASH gives up the gross; without a split COLLECTED keeps only a
  // negative net and AVAILABLE gains only a positive one; with a split COLLECTED nets to zero and
  // AVAILABLE gains the gross less fee, tax and reserve.
  function CaptureChange(x: Capture, plan: CapturePlan, a: Account): int {
    match a
    case CASH => -x.amount
    case FEES => plan.fee
    case TAX_PAYABLE => plan.tax
    case RESERVE => plan.reserve
    case COLLECTED => if x.rule.None? then Min(plan.net, 0) else 0
    case AVAILABLE => if x.rule.None? then Max(plan.net, 0) else x.amount - plan.fee - plan.tax - plan.reserve
    case PENDING => 0
    case PAID_OUT => 0
    case WALLET => 0
  }

  lemma CaptureEffects(x: Capture, plan: CapturePlan, a: Account, c: Currency)
    requires PlanFor(x) == Ok(plan)
    ensures Effects(BalanceOf(a, c), CapturePostings(x, plan))
            == if c == x.currency then CaptureChange(x, plan, a) else 0
  {
    EffectsConcat(BalanceOf(a, c), [GrossMove(x)] + CaptureSplit(x), Charges(x, plan));
    GrossEffect(x, a, c);
    ChargesEffect(x, plan, a, c);
  }

  // The gross goes from CASH to where the charges will be taken from.
  lemma GrossEffect(x: Capture, a: Account, c: Currency)
    requires x.rule.Some? ==> Shares.Split(x.amount, x.rule.value).Ok?
    ensures Effects(BalanceOf(a, c), [GrossMove(x)] + CaptureSplit(x))
            == if c != x.currency then 0
               else (if a == ChargeFrom(x) then x.amount else 0) - (if a == CASH then x.amount else 0)
  {
    EffectsConcat(BalanceOf(a, c), [GrossMove(x)], CaptureSplit(x));
    EffectsOfOne(BalanceOf(a, c), GrossMove(x));
    if x.rule.Some? { CaptureSplitEffect(x, a, c); }
  }

  lemma CaptureMeaning(s: State, x: Capture, a: Account, c: Currency)
    requires SettleCapture(s, x).Commit? && SettleCapture(s, x).value
    ensures PlanFor(x).Ok?
    ensures Total(BalanceOf(a, c), SettleCapture(s, x).state.entries)
            == Total(BalanceOf(a, c), s.entries) + if c == x.currency then CaptureChange(x, PlanFor(x).value, a) else 0
  {
    CaptureEffects(x, PlanFor(x).value, a, c);
    PostAllEffect(BalanceOf(a, c), s.entries, CapturePostings(x, PlanFor(x).value));
  }

  lemma PartiesOfCapture(es: seq<Entry>, x: Capture, plan: CapturePlan, party: PartyId, c: Currency)
    requires x.rule.Some? && Shares.Split(x.amount, x.rule.value).Ok?
    ensures Total(PartyBalanceOf(AVAILABLE, c, party), PostAll(es, CapturePostings(x, plan)))
            == Total(PartyBalanceOf(AVAILABLE, c, party), es) + SplitSum(CaptureRows(x), party, c, Settled)
  {
    var shares, r := x.rule.value, Shares.Split(x.amount, x.rule.value).value;
    var o := OrderFor(FromIntent(x.intent), x.currency, AtCapture, false);
    var before, moves := [GrossMove(x)], ShareMoves(o, shares, r.shares);
    var after := PlatformMove(o, AtCapture, r.platform) + Charges(x, plan);
    assert before + moves + after == CapturePostings(x, plan);
    AroundMoves(PartyBalanceOf(AVAILABLE, c, party), es, before, moves, after);
    MovesMatchRows(o, Settled, shares, r.shares, AVAILABLE, c, party);
  }

  // Fees, tax and reserve never reach a beneficiary: each party's AVAILABLE gains exactly its shares
  // of the gross, as recorded in the rows written with them.
  lemma BeneficiariesUntouchedByFees(s: State, x: Capture, party: PartyId, c: Currency)
    requires SettleCapture(s, x).Commit? && SettleCapture(s, x).value && x.rule.Some?
    ensures Total(PartyBalanceOf(AVAILABLE, c, party), SettleCapture(s, x).state.entries)
            == Total(PartyBalanceOf(AVAILABLE, c, party), s.entries) + SplitSum(CaptureRows(x), party, c, Settled)
  {
    PartiesOfCapture(s.entries, x, PlanFor(x).value, party, c);
  }

  function RowsTotal(rows: seq<SplitRow>): int {
    if rows == [] then 0 else RowsTotal(rows[..|rows| - 1]) + rows[|rows| - 1].amount
  }

  lemma {:induction false} RowsAddUp(c: Currency, status: SplitStatus, shares: seq<Shares.ShareSpec>, amounts: seq<int>)
    requires |amounts| == |shares|
    ensures RowsTotal(ShareRows(c, status, shares, amounts)) == Shares.Sum(amounts)
  {
    if shares != [] {
      var n := |shares| - 1;
      RowsAddUp(c, status, shares[..n], amounts[..n]);
      var before := ShareRows(c, status, shares[..n], amounts[..n]);
      assert (before + [SplitRow(shares[n].party, amounts[n], c, status)])[..|before|] == before;
    }
  }

  // What a plan charges to an account.
  function Charged(plan: CapturePlan, a: Account): int {
    match a
    case FEES => plan.fee
    case TAX_PAYABLE => plan.tax
    case RESERVE => plan.reserve
    case _ => 0
  }

  // What the rows written by a split capture leave of its gross.
  function RestOf(x: Capture, written: seq<SplitRow>): int {
    x.amount - RowsTotal(written)
  }

  // A split capture is charged on what its recorded rows leave of the gross: fee, tax and reserve are
  // those a plan of that amount has under the same configuration.
  lemma SplitIsChargedOnTheRest(s: State, x: Capture, a: Account)
    requires SettleCapture(s, x).Commit? && SettleCapture(s, x).value && x.rule.Some?
    requires a in {FEES, TAX_PAYABLE, RESERVE}
    ensures var t := SettleCapture(s, x).state;
            var rest := RestOf(x, t.splits[|s.splits|..]);
            var priced := PlanCapture(rest, x.schedule, x.reserve, x.meth, x.tax);
            && 0 <= rest && priced.Ok?
            && Total(BalanceOf(a, x.currency), t.entries)
               == Total(BalanceOf(a, x.currency), s.entries) + Charged(priced.value, a)
  {
    var t, r := SettleCapture(s, x).state, Shares.Split(x.amount, x.rule.value).value;
    assert t.splits[|s.splits|..] == CaptureRows(x);
    RowsAddUp(x.currency, Settled, x.rule.value, r.shares);
    CaptureMeaning(s, x, a, x.currency);
  }

  // A plain capture is charged on its gross.
  lemma PlainIsChargedOnTheGross(s: State, x: Capture, a: Account)
    requires x.amount > 0 && x.rule.None? && !AlreadySettled(s.entries, x.intent)
    requires PlanCapture(x.amount, x.schedule, x.reserve, x.meth, x.tax).Ok? && a in {FEES, TAX_PAYABLE, RESERVE}
    ensures SettleCapture(s, x).Commit? && SettleCapture(s, x).value && SettleCapture(s, x).state.splits == s.splits
    ensures Total(BalanceOf(a, x.currency), SettleCapture(s, x).state.entries)
            == Total(BalanceOf(a, x.currency), s.entries)
               + Charged(PlanCapture(x.amount, x.schedule, x.reserve, x.meth, x.tax).value, a)
  {
    CaptureMeaning(s, x, a, x.currency);
  }

  // So a split capture is charged what a plain capture of the rest is, when there is a rest to capture.
  lemma SplitIsChargedLikeAPlainCapture(s: State, x: Capture, t: State, plain: Capture, a: Account)
    requires SettleCapture(s, x) == Commit(t, true) && x.rule.Some? && a in {FEES, TAX_PAYABLE, RESERVE}
    requires plain == x.(rule := None, amount := RestOf(x, t.splits[|s.splits|..])) && 0 < plain.amount
    ensures SettleCapture(s, plain).Commit? && SettleCapture(s, plain).value
    ensures Total(BalanceOf(a, x.currency), SettleCapture(s, plain).state.entries)
            == Total(BalanceOf(a, x.currency), t.entries)
  {
    SplitIsChargedOnTheRest(s, x, a);
    PlainIsChargedOnTheGross(s, plain, a);
  }

  // Postings after a first one leave its two entries where they are.
  lemma FirstPostingStays(es: seq<Entry>, p: Posting, rest: seq<Posting>)
    ensures var all := PostAll(es, [p] + rest);
            |es| + 2 <= |all| && all[|es| + 1].leg == p.credit && all[|es| + 1].source == p.source
  {
    PostAllConcat(es, [p], rest);
    PostAllSnoc(es, [], p);
    assert [] + [p] == [p];
    var first := PostAll(es, [p]);
    PostAllExtends(first, rest);
    assert PostAll(first, rest)[..|first|][|es| + 1] == first[|es| + 1];
  }

  // The first posting of a capture is the credit a replay looks for.
  lemma CaptureLeavesItsMark(s: State, x: Capture)
    requires SettleCapture(s, x).Commit? && SettleCapture(s, x).value
    ensures AlreadySettled(SettleCapture(s, x).state.entries, x.intent)
  {
    var rest := CaptureSplit(x) + Charges(x, PlanFor(x).value);
    assert CapturePostings(x, PlanFor(x).value) == [GrossMove(x)] + rest;
    FirstPostingStays(s.entries, GrossMove(x), rest);
    assert IsCaptureCredit(SettleCapture(s, x).state.entries[|s.entries| + 1], x.intent);
  }

  // Once an intent is settled, settling it again changes nothing, however the ledger has grown and
  // whatever the amount or configuration of the replay.
  lemma ReplayChangesNothing(s: State, x: Capture, t: State, again: Capture)
    requires SettleCapture(s, x).Commit? && SettleCapture(s, x).value
    requires var es := SettleCapture(s, x).state.entries; |es| <= |t.entries| && t.entries[..|es|] == es
    requires again.intent == x.intent
    ensures SettleCapture(t, again) == Commit(t, false)
  {
    CaptureLeavesItsMark(s, x);
    var es := SettleCapture(s, x).state.entries;
    var i :| 0 <= i < |es| && IsCaptureCredit(es[i], x.intent);
    assert t.entries[i] == es[i];
  }
}
