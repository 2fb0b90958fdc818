// What a refund takes back, how far it undoes the capture it refunds, and whom it leaves alone.
module RefundLedger {
  import opened Prelude
  import opened Money
  import opened Ledger
  import opened Fees
  import opened FxSettlement
  import opened Books
  import opened SplitLedger
  import opened CaptureLedger
  import Shares

  // The settlement credits among the credit legs of a batch of postings.
  function CreditsIn(ps: seq<Posting>, intent: nat): seq<Leg> {
    if ps == [] then []
    else
      var p := ps[|ps| - 1];
      CreditsIn(ps[..|ps| - 1], intent) + if IsRefundable(Entry(p.credit, 0, p.source), intent) then [p.credit] else []
  }

  lemma {:induction false} CreditsInConcat(a: seq<Posting>, b: seq<Posting>, intent: nat)
    ensures CreditsIn(a + b, intent) == CreditsIn(a, intent) + CreditsIn(b, intent)
  {
    if b == [] {
      assert a + b == a;
    } else {
      assert (a + b)[..|a + b| - 1] == a + b[..|b| - 1];
      CreditsInConcat(a, b[..|b| - 1], intent);
    }
  }

  lemma {:induction false} CreditsConcat(a: seq<Entry>, b: seq<Entry>, intent: nat)
    ensures SettlementCredits(a + b, intent) == SettlementCredits(a, intent) + SettlementCredits(b, intent)
  {
    if b == [] {
      assert a + b == a;
    } else {
      assert (a + b)[..|a + b| - 1] == a + b[..|b| - 1];
      CreditsConcat(a, b[..|b| - 1], intent);
    }
  }

  lemma {:induction false} NoCredits(es: seq<Entry>, intent: nat)
    requires forall e :: e in es ==> e.source != FromIntent(intent)
    ensures SettlementCredits(es, intent) == []
  {
    if es != [] {
      assert es[|es| - 1] in es;
      NoCredits(es[..|es| - 1], intent);
    }
  }

  lemma {:induction false} CreditsOfPosted(es: seq<Entry>, ps: seq<Posting>, intent: nat)
    requires forall p :: p in ps ==> p.debit.direction == DEBIT && p.credit.direction == CREDIT
    ensures SettlementCredits(PostAll(es, ps), intent) == SettlementCredits(es, intent) + CreditsIn(ps, intent)
  {
    if ps != [] {
      var n := |ps| - 1;
      assert ps[n] in ps;
      CreditsOfPosted(es, ps[..n], intent);
      var before, after := PostAll(es, ps[..n]), PostAll(es, ps);
      assert after[..|after| - 1] == before + [after[|before|]];
      assert (before + [after[|before|]])[..|before|] == before;
    }
  }

  lemma CreditsInFour(a: seq<Posting>, b: seq<Posting>, c: seq<Posting>, d: seq<Posting>, i: nat)
    ensures CreditsIn(a + b + c + d, i) == CreditsIn(a, i) + CreditsIn(b, i) + CreditsIn(c, i) + CreditsIn(d, i)
  {
    CreditsInConcat(a + b + c, d, i);
    CreditsInConcat(a + b, c, i);
    CreditsInConcat(a, b, i);
  }

  // What a list of credits put on one account, and on all.
  function CreditedTo(credits: seq<Leg>, a: Account): int {
    if credits == [] then 0
    else
      var leg := credits[|credits| - 1];
      CreditedTo(credits[..|credits| - 1], a) + if leg.account == a then Max(leg.amount, 0) else 0
  }

  function CreditedInAll(credits: seq<Leg>): int {
    if credits == [] then 0 else CreditedInAll(credits[..|credits| - 1]) + Max(credits[|credits| - 1].amount, 0)
  }

  lemma {:induction false} RefundPostingsMove(credits: seq<Leg>, currency: Currency, refund: nat, a: Account,
                                              c: Currency)
    ensures Effects(BalanceOf(a, c), RefundPostings(credits, currency, refund))
            == if c != currency then 0
               else (if a == CASH then CreditedInAll(credits) else 0) - CreditedTo(credits, a)
  {
    if credits != [] {
      var n := |credits| - 1;
      RefundPostingsMove(credits[..n], currency, refund, a, c);
      EffectsConcat(BalanceOf(a, c), RefundPostings(credits[..n], currency, refund),
                    RefundOfCredit(credits[n], currency, refund));
      RefundOfCreditMoves(credits[n], currency, refund, a, c);
    }
  }

  lemma RefundOfCreditMoves(leg: Leg, currency: Currency, refund: nat, a: Account, c: Currency)
    ensures Effects(BalanceOf(a, c), RefundOfCredit(leg, currency, refund))
            == if c != currency then 0
               else (if a == CASH then Max(leg.amount, 0) else 0) - (if leg.account == a then Max(leg.amount, 0) else 0)
  {
    OptionalEffect(BalanceOf(a, c), Move(leg.account, CASH, leg.amount, REFUND, currency, FromRefund(refund)),
                   leg.amount > 0);
  }

  lemma {:induction false} CreditedConcat(x: seq<Leg>, y: seq<Leg>, a: Account)
    ensures CreditedTo(x + y, a) == CreditedTo(x, a) + CreditedTo(y, a)
    ensures CreditedInAll(x + y) == CreditedInAll(x) + CreditedInAll(y)
  {
    if y == [] {
      assert x + y == x;
    } else {
      assert (x + y)[..|x + y| - 1] == x + y[..|y| - 1];
      CreditedConcat(x, y[..|y| - 1], a);
    }
  }

  lemma OnlyCreditsOf(es: seq<Entry>, ps: seq<Posting>, since: seq<Entry>, intent: nat)
    requires forall p :: p in ps ==> p.debit.direction == DEBIT && p.credit.direction == CREDIT
    requires forall e :: e in es ==> e.source != FromIntent(intent)
    requires forall e :: e in since ==> e.source != FromIntent(intent)
    ensures SettlementCredits(PostAll(es, ps) + since, intent) == CreditsIn(ps, intent)
  {
    CreditsConcat(PostAll(es, ps), since, intent);
    NoCredits(since, intent);
    NoCredits(es, intent);
    CreditsOfPosted(es, ps, intent);
  }

  // ---------------------------------------------------------------------------
  // Any refund
  // ---------------------------------------------------------------------------

  // A refund takes from every account exactly what the intent's settlement credited to it and gives
  // all of it to CASH. It overdraws AVAILABLE exactly when the intent's AVAILABLE credits together
  // exceed the balance: the guard looks at the first of them alone.
  lemma RefundMoves(s: State, intent: nat, refund: nat, a: Account, c: Currency)
    requires SettleRefund(s, intent, refund).Commit? && SettleRefund(s, intent, refund).value
    ensures var t, credits := SettleRefund(s, intent, refund).state, SettlementCredits(s.entries, intent);
            && credits != []
            && Total(BalanceOf(a, c), t.entries) - Total(BalanceOf(a, c), s.entries)
               == (if c != credits[0].currency then 0
                   else (if a == CASH then CreditedInAll(credits) else 0) - CreditedTo(credits, a))
            && (Total(BalanceOf(AVAILABLE, credits[0].currency), t.entries) < 0
                <==> CreditedTo(credits, AVAILABLE) > Total(BalanceOf(AVAILABLE, credits[0].currency), s.entries))
  {
    var credits := SettlementCredits(s.entries, intent);
    var ps := RefundPostings(credits, credits[0].currency, refund);
    PostAllEffect(BalanceOf(a, c), s.entries, ps);
    RefundPostingsMove(credits, credits[0].currency, refund, a, c);
    PostAllEffect(BalanceOf(AVAILABLE, credits[0].currency), s.entries, ps);
    RefundPostingsMove(credits, credits[0].currency, refund, AVAILABLE, credits[0].currency);
  }

  // The guard looks at no other account: a refund overdraws RESERVE, or FEES, exactly when the intent's
  // credits to it exceed what it still holds.
  lemma RefundOverdrawsExactlyWhen(s: State, intent: nat, refund: nat, a: Account)
    requires SettleRefund(s, intent, refund).Commit? && SettleRefund(s, intent, refund).value && a != CASH
    ensures var t, credits := SettleRefund(s, intent, refund).state, SettlementCredits(s.entries, intent);
            && credits != []
            && (Total(BalanceOf(a, credits[0].currency), t.entries) < 0
                <==> CreditedTo(credits, a) > Total(BalanceOf(a, credits[0].currency), s.entries))
  {
    RefundMoves(s, intent, refund, a, SettlementCredits(s.entries, intent)[0].currency);
  }

  lemma {:induction false} RefundPostingsTagNobody(credits: seq<Leg>, c: Currency, refund: nat)
    ensures forall p :: p in RefundPostings(credits, c, refund) ==> p.debit.party == None && p.credit.party == None
  {
    if credits != [] { RefundPostingsTagNobody(credits[..|credits| - 1], c, refund); }
  }

  // No refund touches a party's tagged balance.
  lemma RefundLeavesPartiesAlone(s: State, intent: nat, refund: nat, a: Account, c: Currency, party: PartyId)
    ensures Total(PartyBalanceOf(a, c, party), After(s, SettleRefund(s, intent, refund)).entries)
            == Total(PartyBalanceOf(a, c, party), s.entries)
  {
    var credits := SettlementCredits(s.entries, intent);
    if credits != [] {
      RefundPostingsTagNobody(credits, credits[0].currency, refund);
      Untouched(PartyBalanceOf(a, c, party), s.entries, RefundPostings(credits, credits[0].currency, refund));
    }
  }

  lemma {:induction false} RefundPostingsCarryTheirSource(credits: seq<Leg>, c: Currency, refund: nat)
    ensures forall p :: p in RefundPostings(credits, c, refund) ==> p.source == FromRefund(refund)
  {
    if credits != [] { RefundPostingsCarryTheirSource(credits[..|credits| - 1], c, refund); }
  }

  // A second call with the same refund id is a no-op, whatever intent it names.
  lemma SecondRefundIsNoOp(s: State, intent: nat, refund: nat)
    requires SettleRefund(s, intent, refund).Commit? && SettleRefund(s, intent, refund).value
    ensures var t := SettleRefund(s, intent, refund).state;
            After(t, SettleRefund(t, intent, refund)) == t
    ensures var t := SettleRefund(s, intent, refund).state;
            t != s ==> AlreadyRefunded(t.entries, refund) && SettleRefund(t, intent, refund) == Commit(t, false)
  {
    var t := SettleRefund(s, intent, refund).state;
    var credits := SettlementCredits(s.entries, intent);
    var ps := RefundPostings(credits, credits[0].currency, refund);
    if ps != [] {
      var p := ps[|ps| - 1];
      RefundPostingsCarryTheirSource(credits, credits[0].currency, refund);
      assert p in ps;
      assert t.entries == Post(PostAll(s.entries, ps[..|ps| - 1]), p);
      assert t.entries[|t.entries| - 1].source == FromRefund(refund);
    }
  }

  // ---------------------------------------------------------------------------
  // What a capture credited
  // ---------------------------------------------------------------------------

  // The accounts a refund reverses.
  predicate IsReversed(a: Account) {
    a == AVAILABLE || a == FEES || a == RESERVE
  }

  lemma CreditedByOne(p: Posting, present: bool, intent: nat, a: Account)
    requires p.source == FromIntent(intent) && p.credit.direction == CREDIT && 0 <= p.credit.amount
    ensures var credits := CreditsIn(if present then [p] else [], intent);
            var amount := if present && IsReversed(p.credit.account) then p.credit.amount else 0;
            && CreditedTo(credits, a) == (if a == p.credit.account then amount else 0)
            && CreditedInAll(credits) == amount
  {
    assert [p][..0] == [] && [] + [p.credit] == [p.credit] && [p.credit][..0] == [];
  }

  lemma CreditedByCharge(x: Capture, to: Account, amount: int, category: Category, a: Account)
    ensures var credits := CreditsIn(Charge(x, to, amount, category), x.intent);
            var credited := if IsReversed(to) then Max(amount, 0) else 0;
            && CreditedTo(credits, a) == (if a == to then credited else 0)
            && CreditedInAll(credits) == credited
  {
    if amount > 0 {
      CreditedByOne(Move(ChargeFrom(x), to, amount, category, x.currency, FromIntent(x.intent)), true, x.intent, a);
    }
  }

  lemma CreditedConcatFour(w: seq<Leg>, x: seq<Leg>, y: seq<Leg>, z: seq<Leg>, a: Account)
    ensures CreditedTo(w + x + y + z, a) == CreditedTo(w, a) + CreditedTo(x, a) + CreditedTo(y, a) + CreditedTo(z, a)
    ensures CreditedInAll(w + x + y + z) == CreditedInAll(w) + CreditedInAll(x) + CreditedInAll(y) + CreditedInAll(z)
  {
    CreditedConcat(w + x + y, z, a);
    CreditedConcat(w + x, y, a);
    CreditedConcat(w, x, a);
  }

  lemma CreditedByCharges(x: Capture, plan: CapturePlan, a: Account)
    requires 0 <= plan.fee && 0 <= plan.reserve
    ensures var credits, net := CreditsIn(Charges(x, plan), x.intent), if x.rule.None? then Max(plan.net, 0) else 0;
            && CreditedTo(credits, a)
               == (if a == FEES then plan.fee else if a == RESERVE then plan.reserve else if a == AVAILABLE then net
                   else 0)
            && CreditedInAll(credits) == plan.fee + plan.reserve + net
  {
    var fee, tax := Charge(x, FEES, plan.fee, FEE), Charge(x, TAX_PAYABLE, plan.tax, TAX);
    var reserve := Charge(x, RESERVE, plan.reserve, CAPTURE);
    var net := if x.rule.None? then Charge(x, AVAILABLE, plan.net, CAPTURE) else [];
    CreditsInFour(fee, tax, reserve, net, x.intent);
    CreditedConcatFour(CreditsIn(fee, x.intent), CreditsIn(tax, x.intent), CreditsIn(reserve, x.intent),
                       CreditsIn(net, x.intent), a);
    CreditedByCharge(x, FEES, plan.fee, FEE, a);
    CreditedByCharge(x, TAX_PAYABLE, plan.tax, TAX, a);
    CreditedByCharge(x, RESERVE, plan.reserve, CAPTURE, a);
    CreditedByCharge(x, AVAILABLE, plan.net, CAPTURE, a);
  }

  // The share postings of an intent credit their amounts, one after the other.
  lemma {:induction false} CreditedByShares(o: SplitOrder, shares: seq<Shares.ShareSpec>, amounts: seq<int>,
                                            intent: nat, a: Account)
    requires |amounts| == |shares| && forall i :: 0 <= i < |amounts| ==> 0 <= amounts[i]
    requires o.source == FromIntent(intent) && o.to == AVAILABLE
    ensures var credits := CreditsIn(ShareMoves(o, shares, amounts), intent);
            && |credits| == |shares|
            && (forall i :: 0 <= i < |shares| ==> credits[i] == ShareMove(o, shares[i].party, amounts[i]).credit)
            && CreditedTo(credits, a) == (if a == AVAILABLE then Shares.Sum(amounts) else 0)
            && CreditedInAll(credits) == Shares.Sum(amounts)
  {
    if shares != [] {
      var n := |shares| - 1;
      var before, last := ShareMoves(o, shares[..n], amounts[..n]), ShareMove(o, shares[n].party, amounts[n]);
      CreditedByShares(o, shares[..n], amounts[..n], intent, a);
      assert (before + [last])[..|before|] == before;
      assert (CreditsIn(before, intent) + [last.credit])[..n] == CreditsIn(before, intent);
    }
  }

  lemma CreditedBySplit(x: Capture, a: Account)
    requires x.rule.Some? && Shares.Split(x.amount, x.rule.value).Ok?
    ensures var credits := CreditsIn(CaptureSplit(x), x.intent);
            var shares := Shares.Split(x.amount, x.rule.value).value.shares;
            && credits != [] && shares != []
            && credits[0] == CreditLeg(AVAILABLE, shares[0], SPLIT, Some(x.rule.value[0].party), x.currency)
            && CreditedTo(credits, a) == (if a == AVAILABLE then x.amount else 0)
            && CreditedInAll(credits) == x.amount
  {
    var shares, r := x.rule.value, Shares.Split(x.amount, x.rule.value).value;
    var o := OrderFor(FromIntent(x.intent), x.currency, AtCapture, false);
    var platform := Move(o.from, AVAILABLE, r.platform, SPLIT, o.currency, o.source);
    SplitAmountsNonNegative(x.amount, shares);
    CreditsInConcat(ShareMoves(o, shares, r.shares), PlatformMove(o, AtCapture, r.platform), x.intent);
    CreditedByShares(o, shares, r.shares, x.intent, a);
    CreditedByOne(platform, r.platform > 0, x.intent, a);
    CreditedConcat(CreditsIn(ShareMoves(o, shares, r.shares), x.intent),
                   CreditsIn(PlatformMove(o, AtCapture, r.platform), x.intent), a);
  }

  // What a settled capture credited to the accounts a refund reverses.
  function CreditedBy(x: Capture, plan: CapturePlan, a: Account): int {
    match a
    case FEES => plan.fee
    case RESERVE => plan.reserve
    case AVAILABLE => if x.rule.None? then Max(plan.net, 0) else x.amount
    case _ => 0
  }

  // The gross itself is no settlement credit.
  lemma CreditsOfCapture(x: Capture, plan: CapturePlan)
    ensures CreditsIn(CapturePostings(x, plan), x.intent)
            == CreditsIn(CaptureSplit(x), x.intent) + CreditsIn(Charges(x, plan), x.intent)
  {
    var gross, split := [GrossMove(x)], CreditsIn(CaptureSplit(x), x.intent);
    CreditsInConcat(gross + CaptureSplit(x), Charges(x, plan), x.intent);
    CreditsInConcat(gross, CaptureSplit(x), x.intent);
    assert gross[..0] == [] && CreditsIn(gross, x.intent) == [];
    assert [] + split == split;
  }

  lemma CreditedBySplitPart(x: Capture, a: Account)
    requires x.rule.Some? ==> Shares.Split(x.amount, x.rule.value).Ok?
    ensures var credits, credited := CreditsIn(CaptureSplit(x), x.intent), if x.rule.Some? then x.amount else 0;
            CreditedTo(credits, a) == (if a == AVAILABLE then credited else 0) && CreditedInAll(credits) == credited
  {
    if x.rule.Some? { CreditedBySplit(x, a); }
  }

  lemma PlanFacts(x: Capture, plan: CapturePlan)
    requires PlanFor(x) == Ok(plan)
    ensures 0 <= plan.fee && 0 <= plan.tax && 0 <= plan.reserve
    ensures x.rule.Some? ==> Shares.Split(x.amount, x.rule.value).Ok?
  {
  }

  lemma CreditedByBoth(x: Capture, plan: CapturePlan, a: Account)
    requires 0 <= plan.fee && 0 <= plan.reserve && (x.rule.Some? ==> Shares.Split(x.amount, x.rule.value).Ok?)
    ensures var credits := CreditsIn(CaptureSplit(x), x.intent) + CreditsIn(Charges(x, plan), x.intent);
            CreditedTo(credits, a) == CreditedBy(x, plan, a)
            && CreditedInAll(credits) == plan.fee + plan.reserve + CreditedBy(x, plan, AVAILABLE)
  {
    CreditedConcat(CreditsIn(CaptureSplit(x), x.intent), CreditsIn(Charges(x, plan), x.intent), a);
    CreditedByCharges(x, plan, a);
    CreditedBySplitPart(x, a);
  }

  lemma CreditedByCapture(x: Capture, plan: CapturePlan, a: Account)
    requires 0 <= plan.fee && 0 <= plan.reserve && (x.rule.Some? ==> Shares.Split(x.amount, x.rule.value).Ok?)
    ensures var credits := CreditsIn(CapturePostings(x, plan), x.intent);
            && CreditedTo(credits, a) == CreditedBy(x, plan, a)
            && CreditedInAll(credits) == plan.fee + plan.reserve + CreditedBy(x, plan, AVAILABLE)
  {
    CreditsOfCapture(x, plan);
    CreditedByBoth(x, plan, a);
  }

  lemma {:induction false} CreditsOfOneCurrency(ps: seq<Posting>, intent: nat, c: Currency)
    requires forall p :: p in ps ==> p.credit.currency == c
    ensures forall leg :: leg in CreditsIn(ps, intent) ==> leg.currency == c
  {
    if ps != [] {
      assert ps[|ps| - 1] in ps;
      CreditsOfOneCurrency(ps[..|ps| - 1], intent, c);
    }
  }

  // ---------------------------------------------------------------------------
  // Capture, then refund
  // ---------------------------------------------------------------------------

  // A capture settled in `s`, then `t`: the same ledger with anything posted since by other sources.
  predicate CapturedThen(s: State, x: Capture, t: State, since: seq<Entry>) {
    && SettleCapture(s, x).Commit? && SettleCapture(s, x).value
    && (forall e :: e in s.entries ==> e.source != FromIntent(x.intent))
    && (forall e :: e in since ==> e.source != FromIntent(x.intent))
    && t.entries == SettleCapture(s, x).state.entries + since
  }

  lemma {:induction false} ShareMovesShape(o: SplitOrder, shares: seq<Shares.ShareSpec>, amounts: seq<int>)
    requires |amounts| == |shares|
    ensures forall p :: p in ShareMoves(o, shares, amounts) ==>
              p.debit.direction == DEBIT && p.credit.direction == CREDIT && p.credit.currency == o.currency
  {
    if shares != [] { ShareMovesShape(o, shares[..|shares| - 1], amounts[..|shares| - 1]); }
  }

  lemma CapturePostingsShape(x: Capture, plan: CapturePlan)
    ensures forall p :: p in CapturePostings(x, plan) ==>
              p.debit.direction == DEBIT && p.credit.direction == CREDIT && p.credit.currency == x.currency
  {
    if x.rule.Some? && Shares.Split(x.amount, x.rule.value).Ok? {
      ShareMovesShape(OrderFor(FromIntent(x.intent), x.currency, AtCapture, false), x.rule.value,
                      Shares.Split(x.amount, x.rule.value).value.shares);
    }
  }

  // The refund finds exactly the credits of the capture.
  lemma RefundFindsTheCapture(s: State, x: Capture, t: State, since: seq<Entry>)
    requires CapturedThen(s, x, t, since)
    ensures var credits := SettlementCredits(t.entries, x.intent);
            && credits == CreditsIn(CapturePostings(x, PlanFor(x).value), x.intent)
            && (credits != [] ==> credits[0].currency == x.currency)
  {
    var ps := CapturePostings(x, PlanFor(x).value);
    CapturePostingsShape(x, PlanFor(x).value);
    OnlyCreditsOf(s.entries, ps, since, x.intent);
    CreditsOfOneCurrency(ps, x.intent, x.currency);
    var credits := CreditsIn(ps, x.intent);
    if credits != [] { assert credits[0] in credits; }
  }

  // What capture and refund together leave behind on an account. A split capture has credited the whole
  // gross beside its charges, so its refund takes the charges from AVAILABLE a second time.
  function Residue(x: Capture, plan: CapturePlan, a: Account): int {
    match a
    case CASH => if x.rule.None? then -plan.tax - Min(plan.net, 0) else plan.fee + plan.reserve
    case TAX_PAYABLE => plan.tax
    case COLLECTED => if x.rule.None? then Min(plan.net, 0) else 0
    case AVAILABLE => if x.rule.None? then 0 else -(plan.fee + plan.tax + plan.reserve)
    case RESERVE => 0
    case FEES => 0
    case PENDING => 0
    case PAID_OUT => 0
    case WALLET => 0
  }

  lemma RefundTakesBack(s: State, x: Capture, t: State, since: seq<Entry>, refund: nat, a: Account, c: Currency)
    requires CapturedThen(s, x, t, since)
    requires SettleRefund(t, x.intent, refund).Commit? && SettleRefund(t, x.intent, refund).value
    ensures var plan := PlanFor(x).value;
            Total(BalanceOf(a, c), SettleRefund(t, x.intent, refund).state.entries) - Total(BalanceOf(a, c), t.entries)
            == if c != x.currency then 0
               else (if a == CASH then plan.fee + plan.reserve + CreditedBy(x, plan, AVAILABLE) else 0)
                    - CreditedBy(x, plan, a)
  {
    RefundFindsTheCapture(s, x, t, since);
    PlanFacts(x, PlanFor(x).value);
    CreditedByCapture(x, PlanFor(x).value, a);
    RefundMoves(t, x.intent, refund, a, c);
  }

  // Capture, then anything from other sources, then refund: every balance is what the others made it,
  // up to the residue.
  lemma RefundUndoesCapture(s: State, x: Capture, t: State, since: seq<Entry>, refund: nat, a: Account, c: Currency)
    requires CapturedThen(s, x, t, since)
    requires SettleRefund(t, x.intent, refund).Commit? && SettleRefund(t, x.intent, refund).value
    ensures Total(BalanceOf(a, c), SettleRefund(t, x.intent, refund).state.entries)
            == Total(BalanceOf(a, c), s.entries) + Total(BalanceOf(a, c), since)
               + if c == x.currency then Residue(x, PlanFor(x).value, a) else 0
  {
    RefundTakesBack(s, x, t, since, refund, a, c);
    TotalConcat(BalanceOf(a, c), SettleCapture(s, x).state.entries, since);
    CaptureMeaning(s, x, a, c);
    WhatStays(x, PlanFor(x).value, a);
  }

  // The capture's change less what the refund takes back is the residue.
  lemma WhatStays(x: Capture, plan: CapturePlan, a: Account)
    requires x.rule.None? ==> plan.fee + plan.tax + plan.reserve + plan.net == x.amount
    ensures CaptureChange(x, plan, a)
            + (if a == CASH then plan.fee + plan.reserve + CreditedBy(x, plan, AVAILABLE) else 0)
            - CreditedBy(x, plan, a) == Residue(x, plan, a)
  {
  }

  // The beneficiaries keep what the capture gave them: the refund is the platform's alone to bear.
  lemma BeneficiariesKeepTheirShares(s: State, x: Capture, t: State, since: seq<Entry>, refund: nat, party: PartyId,
                                     c: Currency)
    requires CapturedThen(s, x, t, since) && x.rule.Some?
    ensures Total(PartyBalanceOf(AVAILABLE, c, party), After(t, SettleRefund(t, x.intent, refund)).entries)
            == Total(PartyBalanceOf(AVAILABLE, c, party), s.entries) + Total(PartyBalanceOf(AVAILABLE, c, party), since)
               + SplitSum(CaptureRows(x), party, c, Settled)
  {
    RefundLeavesPartiesAlone(t, x.intent, refund, AVAILABLE, c, party);
    TotalConcat(PartyBalanceOf(AVAILABLE, c, party), SettleCapture(s, x).state.entries, since);
    BeneficiariesUntouchedByFees(s, x, party, c);
  }

  // Every balance is what it was, but for what was posted since.
  ghost predicate Restored(before: seq<Entry>, since: seq<Entry>, after: seq<Entry>) {
    forall a: Account, c: Currency :: Total(BalanceOf(a, c), after)
        == Total(BalanceOf(a, c), before) + Total(BalanceOf(a, c), since)
  }

  // The captures a refund undoes: without a split those with no tax and a net that is not negative,
  // with one those that carried no charge at all.
  predicate IsUndoable(x: Capture, plan: CapturePlan) {
    if x.rule.None? then plan.tax == 0 && plan.net >= 0 else plan.fee == 0 && plan.tax == 0 && plan.reserve == 0
  }

  lemma ResidueDecides(before: seq<Entry>, since: seq<Entry>, after: seq<Entry>, x: Capture, plan: CapturePlan)
    requires 0 <= plan.fee && 0 <= plan.tax && 0 <= plan.reserve
    requires forall a: Account, c: Currency ::
               Total(BalanceOf(a, c), after) == Total(BalanceOf(a, c), before) + Total(BalanceOf(a, c), since)
                                                + if c == x.currency then Residue(x, plan, a) else 0
    ensures Restored(before, since, after) <==> IsUndoable(x, plan)
  {
    LeftOver(before, since, after, x, plan, TAX_PAYABLE);
    LeftOver(before, since, after, x, plan, COLLECTED);
    LeftOver(before, since, after, x, plan, AVAILABLE);
  }

  lemma LeftOver(before: seq<Entry>, since: seq<Entry>, after: seq<Entry>, x: Capture, plan: CapturePlan, a: Account)
    requires Total(BalanceOf(a, x.currency), after)
             == Total(BalanceOf(a, x.currency), before) + Total(BalanceOf(a, x.currency), since)
                                                       + Residue(x, plan, a)
    ensures Restored(before, since, after) ==> Residue(x, plan, a) == 0
  {
  }

  // A refund restores every balance exactly when the capture is one of those.
  lemma ExactInverseExactlyWhen(s: State, x: Capture, t: State, since: seq<Entry>, refund: nat)
    requires CapturedThen(s, x, t, since)
    requires SettleRefund(t, x.intent, refund).Commit? && SettleRefund(t, x.intent, refund).value
    ensures Restored(s.entries, since, SettleRefund(t, x.intent, refund).state.entries)
            <==> IsUndoable(x, PlanFor(x).value)
  {
    var after := SettleRefund(t, x.intent, refund).state.entries;
    forall a: Account, c: Currency
      ensures Total(BalanceOf(a, c), after) == Total(BalanceOf(a, c), s.entries) + Total(BalanceOf(a, c), since)
                                               + if c == x.currency then Residue(x, PlanFor(x).value, a) else 0
    {
      RefundUndoesCapture(s, x, t, since, refund, a, c);
    }
    ResidueDecides(s.entries, since, after, x, PlanFor(x).value);
  }

  // ---------------------------------------------------------------------------
  // When a refund goes through
  // ---------------------------------------------------------------------------

  lemma {:induction false} FirstNetSkips(a: seq<Leg>, b: seq<Leg>)
    requires forall leg :: leg in a ==> leg.account != AVAILABLE
    ensures FirstNet(a + b) == FirstNet(b)
  {
    if a == [] {
      assert a + b == b;
    } else {
      assert (a + b)[1..] == a[1..] + b;
      FirstNetSkips(a[1..], b);
    }
  }

  lemma FirstNetOfPlainCharges(x: Capture, plan: CapturePlan)
    requires x.rule.None?
    ensures FirstNet(CreditsIn(Charges(x, plan), x.intent)) == Max(plan.net, 0)
    ensures CreditsIn(Charges(x, plan), x.intent) == [] <==> plan.fee <= 0 && plan.reserve <= 0 && plan.net <= 0
  {
    PlainCredits(x, plan);
    var fee, reserve := CreditOf(x, FEES, plan.fee, FEE), CreditOf(x, RESERVE, plan.reserve, CAPTURE);
    FirstNetSkips(fee + reserve, CreditOf(x, AVAILABLE, plan.net, CAPTURE));
  }

  function CreditOf(x: Capture, to: Account, amount: int, category: Category): seq<Leg> {
    if amount > 0 then [CreditLeg(to, amount, category, None, x.currency)] else []
  }

  lemma PlainCredits(x: Capture, plan: CapturePlan)
    requires x.rule.None?
    ensures CreditsIn(Charges(x, plan), x.intent)
            == CreditOf(x, FEES, plan.fee, FEE) + CreditOf(x, RESERVE, plan.reserve, CAPTURE)
               + CreditOf(x, AVAILABLE, plan.net, CAPTURE)
  {
    CreditsInFour(Charge(x, FEES, plan.fee, FEE), Charge(x, TAX_PAYABLE, plan.tax, TAX),
                  Charge(x, RESERVE, plan.reserve, CAPTURE), Charge(x, AVAILABLE, plan.net, CAPTURE), x.intent);
    CreditOfCharge(x, FEES, plan.fee, FEE);
    CreditOfCharge(x, TAX_PAYABLE, plan.tax, TAX);
    CreditOfCharge(x, RESERVE, plan.reserve, CAPTURE);
    CreditOfCharge(x, AVAILABLE, plan.net, CAPTURE);
  }

  lemma CreditOfCharge(x: Capture, to: Account, amount: int, category: Category)
    ensures CreditsIn(Charge(x, to, amount, category), x.intent)
            == if amount > 0 && IsReversed(to) then [CreditLeg(to, amount, category, None, x.currency)] else []
  {
    if amount > 0 { assert Charge(x, to, amount, category)[..0] == []; }
  }

  // What AVAILABLE must still hold for the refund: the net, or the first beneficiary's share alone.
  function GuardedAmount(x: Capture, plan: CapturePlan): int {
    if x.rule.None? then Max(plan.net, 0)
    else match Shares.Split(x.amount, x.rule.value)
      case Ok(r) => if r.shares == [] then 0 else r.shares[0]
      case Err(_) => 0
  }

  lemma FirstNetOfCapture(x: Capture, plan: CapturePlan)
    requires PlanFor(x) == Ok(plan)
    ensures var credits := CreditsIn(CapturePostings(x, plan), x.intent);
            && FirstNet(credits) == GuardedAmount(x, plan)
            && (credits == [] <==> x.rule.None? && plan.fee == 0 && plan.reserve == 0 && plan.net <= 0)
  {
    CreditsOfCapture(x, plan);
    var charges := CreditsIn(Charges(x, plan), x.intent);
    if x.rule.None? {
      FirstNetOfPlainCharges(x, plan);
      assert [] + charges == charges;
    } else {
      CreditedBySplit(x, AVAILABLE);
    }
  }

  // A first refund goes through exactly when something was credited and AVAILABLE still holds the
  // guarded amount.
  lemma RefundAcceptedExactlyWhen(s: State, x: Capture, t: State, since: seq<Entry>, refund: nat)
    requires CapturedThen(s, x, t, since) && !AlreadyRefunded(t.entries, refund)
    ensures var plan, tx := PlanFor(x).value, SettleRefund(t, x.intent, refund);
            var credited := x.rule.Some? || plan.fee > 0 || plan.reserve > 0 || plan.net > 0;
            && (tx.Commit? && tx.value
                <==> credited && GuardedAmount(x, plan) <= Total(BalanceOf(AVAILABLE, x.currency), t.entries))
            && (tx.Abort? ==> credited)
  {
    RefundFindsTheCapture(s, x, t, since);
    FirstNetOfCapture(x, PlanFor(x).value);
  }
}
