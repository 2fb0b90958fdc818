// The invariant of the whole database, and the proof that every transaction keeps it.
module Transactions {
  import opened Prelude
  import opened Money
  import opened Ledger
  import opened Fees
  import opened FxSettlement
  import opened Reversals
  import opened Books
  import opened WalletLedger
  import opened SplitLedger
  import opened DisputeLedger
  import opened PayoutLedger
  import Shares
  import WalletMath

  ghost predicate Inv(s: State) {
    LedgerInv(s.entries) && WalletInv(s) && SplitInv(s) && DisputeInv(s) && PayoutInv(s)
  }

  lemma EmptyInv()
    ensures Inv(EMPTY)
  {
  }

  // A valid posting that only the ledger itself takes notice of.
  predicate Neutral(p: Posting) {
    ValidPosting(p) && NoWalletLegs(p) && NoPartyLegs(p) && NoChargebackLegs(p) && NoPayoutLegs(p)
  }

  lemma CreatePayoutKeepsInv(s: State, key: nat, c: Currency, rates: Rates)
    requires Inv(s)
    ensures Inv(After(s, CreatePayout(s, key, c, rates)))
  {
    var s' := After(s, CreatePayout(s, key, c, rates));
    CreateKeepsPayouts(s, key, c, rates);
    if s'.entries != s.entries {
      var ps := SweepPlan(s.entries, c, rates, |SUPPORTED_CURRENCIES|);
      SweepPostingsAreAdjustments(s.entries, c, rates, |SUPPORTED_CURRENCIES|);
      PostAllKeepsLedger(s.entries, ps);
      WalletFrame(s, s', ps);
      SplitFrame(s, s', ps);
      DisputeFrame(s, s', ps);
    } else {
      SameEntries(s, s');
    }
  }

  // With the entries and the other tables unchanged, the other sub-ledgers are as they were.
  lemma SameEntries(s: State, s': State)
    requires s'.entries == s.entries
    ensures s'.wallets == s.wallets && s'.walletTxs == s.walletTxs && WalletInv(s) ==> WalletInv(s')
    ensures s'.splits == s.splits && SplitInv(s) ==> SplitInv(s')
    ensures s'.disputes == s.disputes && s'.recoveries == s.recoveries && DisputeInv(s) ==> DisputeInv(s')
    ensures s'.payouts == s.payouts && s'.items == s.items && PayoutInv(s) ==> PayoutInv(s')
  {
    assert PostAll(s.entries, []) == s'.entries;
    if s'.wallets == s.wallets && s'.walletTxs == s.walletTxs && WalletInv(s) { WalletFrame(s, s', []); }
    if s'.splits == s.splits && SplitInv(s) { SplitFrame(s, s', []); }
    if s'.disputes == s.disputes && s'.recoveries == s.recoveries && DisputeInv(s) { DisputeFrame(s, s', []); }
    if s'.payouts == s.payouts && s'.items == s.items && PayoutInv(s) { PayoutFrame(s, s', []); }
  }

  lemma CancelKeepsInv(s: State, id: nat)
    requires Inv(s)
    ensures Inv(After(s, CancelPayout(s, id)))
  {
    CancelKeepsPayouts(s, id);
    SameEntries(s, After(s, CancelPayout(s, id)));
  }

  lemma FailKeepsInv(s: State, id: nat)
    requires Inv(s)
    ensures Inv(After(s, MarkPayoutFailed(s, id)))
  {
    FailKeepsPayouts(s, id);
    SameEntries(s, After(s, MarkPayoutFailed(s, id)));
  }

  lemma AdvanceKeepsInv(s: State, id: nat, to: PayoutStatus)
    requires Inv(s)
    ensures Inv(After(s, AdvancePayout(s, id, to)))
  {
    AdvanceKeepsPayouts(s, id, to);
    SameEntries(s, After(s, AdvancePayout(s, id, to)));
  }

  lemma OnePosting(es: seq<Entry>, p: Posting)
    ensures Post(es, p) == PostAll(es, [p])
  {
    assert [p][..0] == [];
  }

  lemma PaidKeepsInv(s: State, id: nat)
    requires Inv(s)
    ensures Inv(After(s, MarkPayoutPaid(s, id)))
  {
    PaidKeepsPayouts(s, id);
    if MarkPayoutPaid(s, id).Commit? {
      var s', p := PaidOut(s, id), Settlement(id, s.payouts[id]);
      OnePosting(s.entries, p);
      PostKeepsLedger(s.entries, p);
      WalletFrame(s, s', [p]);
      SplitFrame(s, s', [p]);
      DisputeFrame(s, s', [p]);
    }
  }

  lemma CreateWalletKeepsInv(s: State, owner: nat, c: Currency)
    requires Inv(s)
    ensures Inv(After(s, CreateWallet(s, owner, c)))
  {
    CreateKeepsWallets(s, owner, c);
    SameEntries(s, After(s, CreateWallet(s, owner, c)));
  }

  // A wallet movement disturbs no other sub-ledger.
  lemma MovementKeepsOthers(s: State, w: nat, kind: WalletTxKind, m: WalletMath.Movement, ps: seq<Posting>)
    requires Inv(s) && w < |s.wallets| && forall p :: p in ps ==> WalletPosting(p)
    requires WalletInv(Moved(s, w, kind, m, ps))
    ensures Inv(Moved(s, w, kind, m, ps))
  {
    var s' := Moved(s, w, kind, m, ps);
    PostAllKeepsLedger(s.entries, ps);
    SplitFrame(s, s', ps);
    DisputeFrame(s, s', ps);
    PayoutFrame(s, s', ps);
  }

  lemma TopUpKeepsInv(s: State, w: nat, amount: int, basis: WalletMath.CommissionBasis, schedule: FeeSchedule)
    requires Inv(s)
    ensures Inv(After(s, TopUpWallet(s, w, amount, basis, schedule)))
  {
    TopUpKeepsWallets(s, w, amount, basis, schedule);
    if TopUpWallet(s, w, amount, basis, schedule).Commit? {
      var c, m := s.wallets[w].currency, TopUpMovement(s.wallets[w].balance, amount, basis, schedule).value;
      MovementPostingsAreWalletPostings(w, c, m);
      MovementKeepsOthers(s, w, TopUpTx, m, TopUpPostings(w, c, m));
    }
  }

  lemma DebitKeepsInv(s: State, w: nat, amount: int, basis: WalletMath.CommissionBasis, schedule: FeeSchedule,
                      meth: Option<Method>)
    requires Inv(s)
    ensures Inv(After(s, DebitWallet(s, w, amount, basis, schedule, meth)))
  {
    DebitKeepsWallets(s, w, amount, basis, schedule, meth);
    if DebitWallet(s, w, amount, basis, schedule, meth).Commit? {
      var c, m := s.wallets[w].currency, DebitMovement(s.wallets[w].balance, amount, basis, schedule, meth).value;
      MovementPostingsAreWalletPostings(w, c, m);
      MovementKeepsOthers(s, w, DebitTx, m, DebitPostings(w, c, m));
    }
  }

  lemma RefundWalletKeepsInv(s: State, w: nat, amount: int)
    requires Inv(s)
    ensures Inv(After(s, RefundWallet(s, w, amount)))
  {
    RefundKeepsWallets(s, w, amount);
    if RefundWallet(s, w, amount).Commit? {
      MovementKeepsOthers(s, w, RefundTx, WalletMath.Refund(s.wallets[w].balance, amount).value,
                          [Move(AVAILABLE, WALLET, amount, REFUND, s.wallets[w].currency, FromWallet(w))]);
    }
  }

  lemma AdjustKeepsInv(s: State, w: nat, signed: int)
    requires Inv(s)
    ensures Inv(After(s, AdjustWallet(s, w, signed)))
  {
    AdjustKeepsWallets(s, w, signed);
    if AdjustWallet(s, w, signed).Commit? {
      var c, m := s.wallets[w].currency, WalletMath.Adjustment(s.wallets[w].balance, signed).value;
      MovementPostingsAreWalletPostings(w, c, m);
      MovementKeepsOthers(s, w, AdjustmentTx, m, AdjustPostings(w, c, m));
    }
  }

  // Split postings are valid and stay clear of wallets, chargebacks and payouts.
  predicate SplitPosting(p: Posting) {
    ValidPosting(p) && NoWalletLegs(p) && NoChargebackLegs(p) && NoPayoutLegs(p)
  }

  lemma {:induction false} ShareMovesAreSplitPostings(o: SplitOrder, shares: seq<Shares.ShareSpec>, amounts: seq<int>)
    requires |amounts| == |shares| && forall i :: 0 <= i < |amounts| ==> 0 <= amounts[i]
    requires o.from in {COLLECTED, AVAILABLE} && o.to in {RESERVE, AVAILABLE}
    ensures forall p :: p in ShareMoves(o, shares, amounts) ==> SplitPosting(p)
  {
    if shares != [] { ShareMovesAreSplitPostings(o, shares[..|shares| - 1], amounts[..|shares| - 1]); }
  }

  lemma SplitPostingsAreSplitPostings(source: Source, c: Currency, trigger: Trigger, held: bool, cents: int,
                                      shares: seq<Shares.ShareSpec>)
    requires Shares.Split(cents, shares).Ok?
    ensures forall p :: p in SplitPostings(OrderFor(source, c, trigger, held), trigger, shares,
                                           Shares.Split(cents, shares).value)
              ==> SplitPosting(p)
  {
    SplitAmountsNonNegative(cents, shares);
    ShareMovesAreSplitPostings(OrderFor(source, c, trigger, held), shares, Shares.Split(cents, shares).value.shares);
  }

  lemma ExecuteSplitKeepsInv(s: State, source: Source, cents: int, c: Currency, trigger: Trigger,
                             shares: seq<Shares.ShareSpec>, held: bool)
    requires Inv(s)
    ensures Inv(After(s, ExecuteSplit(s, source, cents, c, trigger, shares, held)))
  {
    ExecuteKeepsSplits(s, source, cents, c, trigger, shares, held);
    var tx := ExecuteSplit(s, source, cents, c, trigger, shares, held);
    if tx.Commit? {
      var ps := SplitPostings(OrderFor(source, c, trigger, held), trigger, shares, Shares.Split(cents, shares).value);
      SplitPostingsAreSplitPostings(source, c, trigger, held, cents, shares);
      PostAllKeepsLedger(s.entries, ps);
      WalletFrame(s, tx.state, ps);
      DisputeFrame(s, tx.state, ps);
      PayoutFrame(s, tx.state, ps);
    }
  }

  lemma ReleaseKeepsInv(s: State, id: nat)
    requires Inv(s)
    ensures Inv(After(s, ReleaseSplit(s, id)))
  {
    ReleaseKeepsSplits(s, id);
    var tx := ReleaseSplit(s, id);
    if tx.Commit? {
      var p := ReleaseMove(id, s.splits[id]);
      OnePosting(s.entries, p);
      PostKeepsLedger(s.entries, p);
      WalletFrame(s, tx.state, [p]);
      DisputeFrame(s, tx.state, [p]);
      PayoutFrame(s, tx.state, [p]);
    }
  }

  lemma ChargesAreNeutral(x: Capture, plan: CapturePlan)
    ensures forall p :: p in Charges(x, plan) ==> Neutral(p)
  {
  }

  lemma CapturePostingsAreSplitPostings(x: Capture, plan: CapturePlan)
    requires x.amount > 0
    ensures forall p :: p in CapturePostings(x, plan) ==> SplitPosting(p)
  {
    ChargesAreNeutral(x, plan);
    if x.rule.Some? && Shares.Split(x.amount, x.rule.value).Ok? {
      SplitPostingsAreSplitPostings(FromIntent(x.intent), x.currency, AtCapture, false, x.amount, x.rule.value);
    }
  }

  lemma PlainCaptureKeepsSplits(s: State, x: Capture)
    requires SplitInv(s) && x.rule.None?
    requires SettleCapture(s, x).Commit? && SettleCapture(s, x).value
    ensures SplitInv(SettleCapture(s, x).state)
  {
    var plan := PlanFor(x).value;
    ChargesAreNeutral(x, plan);
    SplitFrame(s, SettleCapture(s, x).state, CapturePostings(x, plan));
  }

  lemma SplittingCaptureKeepsSplits(s: State, x: Capture)
    requires SplitInv(s) && x.rule.Some?
    requires SettleCapture(s, x).Commit? && SettleCapture(s, x).value
    ensures SplitInv(SettleCapture(s, x).state)
  {
    var plan, shares := PlanFor(x).value, x.rule.value;
    var r := Shares.Split(x.amount, shares).value;
    var o := OrderFor(FromIntent(x.intent), x.currency, AtCapture, false);
    var after := PlatformMove(o, AtCapture, r.platform) + Charges(x, plan);
    ChargesAreNeutral(x, plan);
    SplitAmountsNonNegative(x.amount, shares);
    assert [GrossMove(x)] + ShareMoves(o, shares, r.shares) + after == CapturePostings(x, plan);
    SharesKeepSplits(s, SettleCapture(s, x).state, o, Settled, shares, r.shares, [GrossMove(x)], after);
  }

  lemma CaptureKeepsSplits(s: State, x: Capture)
    requires SplitInv(s)
    ensures SplitInv(After(s, SettleCapture(s, x)))
  {
    if SettleCapture(s, x).Commit? && SettleCapture(s, x).value {
      if x.rule.None? { PlainCaptureKeepsSplits(s, x); } else { SplittingCaptureKeepsSplits(s, x); }
    }
  }

  lemma CaptureKeepsInv(s: State, x: Capture)
    requires Inv(s)
    ensures Inv(After(s, SettleCapture(s, x)))
  {
    CaptureKeepsSplits(s, x);
    var tx := SettleCapture(s, x);
    if tx.Commit? && tx.value {
      var ps := CapturePostings(x, PlanFor(x).value);
      CapturePostingsAreSplitPostings(x, PlanFor(x).value);
      PostAllKeepsLedger(s.entries, ps);
      WalletFrame(s, tx.state, ps);
      DisputeFrame(s, tx.state, ps);
      PayoutFrame(s, tx.state, ps);
    }
  }

  lemma {:induction false} CreditsAreRefundable(es: seq<Entry>, intent: nat)
    ensures forall leg :: leg in SettlementCredits(es, intent) ==> leg.account in {AVAILABLE, FEES, RESERVE}
  {
    if es != [] { CreditsAreRefundable(es[..|es| - 1], intent); }
  }

  lemma {:induction false} RefundPostingsAreNeutral(credits: seq<Leg>, c: Currency, refund: nat)
    requires forall leg :: leg in credits ==> leg.account in {AVAILABLE, FEES, RESERVE}
    ensures forall p :: p in RefundPostings(credits, c, refund) ==> Neutral(p)
  {
    if credits != [] {
      assert credits[|credits| - 1] in credits;
      RefundPostingsAreNeutral(credits[..|credits| - 1], c, refund);
    }
  }

  lemma RefundKeepsInv(s: State, intent: nat, refund: nat)
    requires Inv(s)
    ensures Inv(After(s, SettleRefund(s, intent, refund)))
  {
    var tx := SettleRefund(s, intent, refund);
    if tx.Commit? && tx.value {
      var credits := SettlementCredits(s.entries, intent);
      var ps := RefundPostings(credits, credits[0].currency, refund);
      CreditsAreRefundable(s.entries, intent);
      RefundPostingsAreNeutral(credits, credits[0].currency, refund);
      PostAllKeepsLedger(s.entries, ps);
      WalletFrame(s, tx.state, ps);
      SplitFrame(s, tx.state, ps);
      DisputeFrame(s, tx.state, ps);
      PayoutFrame(s, tx.state, ps);
    }
  }

  lemma CreateDisputeKeepsInv(s: State, providerId: nat, amount: int, c: Currency)
    requires Inv(s)
    ensures Inv(After(s, CreateDispute(s, providerId, amount, c)))
  {
    CreateKeepsDisputes(s, providerId, amount, c);
    SameEntries(s, After(s, CreateDispute(s, providerId, amount, c)));
  }

  lemma WonKeepsInv(s: State, id: nat)
    requires Inv(s)
    ensures Inv(After(s, ResolveWon(s, id)))
  {
    WonKeepsDisputes(s, id);
    SameEntries(s, After(s, ResolveWon(s, id)));
  }

  lemma ClawbacksAreOutside(id: nat, c: Currency, a: Allocation)
    ensures forall p :: p in ClawbackPostings(id, c, a) ==>
              ValidPosting(p) && NoWalletLegs(p) && NoPartyLegs(p) && NoPayoutLegs(p)
  {
  }

  lemma LostKeepsInv(s: State, id: nat, policy: FundingPolicy)
    requires Inv(s)
    ensures Inv(After(s, ResolveLost(s, id, policy)))
  {
    LostKeepsDisputes(s, id, policy);
    if ResolveLost(s, id, policy).Commit? {
      var a := LossAllocation(s, id, policy).value;
      var s', ps := ClawedBack(s, id, a), ClawbackPostings(id, s.disputes[id].currency, a);
      ClawbacksAreOutside(id, s.disputes[id].currency, a);
      PostAllKeepsLedger(s.entries, ps);
      WalletFrame(s, s', ps);
      SplitFrame(s, s', ps);
      PayoutFrame(s, s', ps);
    }
  }
}
