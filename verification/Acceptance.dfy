// When each transaction goes through, what it then leaves of the rows it touches, and with which error it
// is refused otherwise. Those of payments, losses, refunds and wallet movements that depend on balances are
// beside what they move.
module Acceptance {
  import opened Prelude
  import opened Money
  import opened Ledger
  import opened Fees
  import opened FxSettlement
  import opened Reversals
  import opened Books
  import Shares
  import WalletMath

  // ---------------------------------------------------------------------------
  // Payouts
  // ---------------------------------------------------------------------------

  // The payout's row has the new status, and no other row has changed.
  predicate NowIs(s: State, t: State, id: nat, status: PayoutStatus)
    requires id < |s.payouts|
  {
    t == s.(items := t.items, payouts := s.payouts[id := s.payouts[id].(status := status)])
  }

  // Exactly the payout's own items are gone.
  ghost predicate LetsGo(s: State, t: State, id: nat) {
    && (forall i :: i in t.items <==> i in s.items && s.items[i].payout != id)
    && (forall i :: i in t.items ==> t.items[i] == s.items[i])
  }

  // A payout can be cancelled until it is being processed.
  lemma CancelCommitsExactlyWhen(s: State, id: nat)
    ensures CancelPayout(s, id).Commit?
            <==> id < |s.payouts| && s.payouts[id].status in {Draft, Scheduled, Pending}
    ensures CancelPayout(s, id).Commit? ==>
              NowIs(s, CancelPayout(s, id).state, id, Cancelled) && LetsGo(s, CancelPayout(s, id).state, id)
    ensures CancelPayout(s, id).Abort? ==>
              CancelPayout(s, id).error == if id < |s.payouts| then IllegalTransition else PayoutNotFound
  {
  }

  // It can fail at any time until it is final.
  lemma FailCommitsExactlyWhen(s: State, id: nat)
    ensures MarkPayoutFailed(s, id).Commit?
            <==> id < |s.payouts| && s.payouts[id].status in {Draft, Scheduled, Pending, Processing}
    ensures MarkPayoutFailed(s, id).Commit? ==>
              NowIs(s, MarkPayoutFailed(s, id).state, id, Failed) && LetsGo(s, MarkPayoutFailed(s, id).state, id)
    ensures MarkPayoutFailed(s, id).Abort? ==>
              MarkPayoutFailed(s, id).error == if id < |s.payouts| then IllegalTransition else PayoutNotFound
  {
  }

  // It advances one state at a time: from draft to scheduled, to pending, to processing.
  lemma AdvanceCommitsExactlyWhen(s: State, id: nat, to: PayoutStatus)
    ensures AdvancePayout(s, id, to).Commit?
            <==> id < |s.payouts|
                 && (s.payouts[id].status, to) in {(Draft, Scheduled), (Scheduled, Pending), (Pending, Processing)}
    ensures AdvancePayout(s, id, to).Commit? ==>
              NowIs(s, AdvancePayout(s, id, to).state, id, to) && AdvancePayout(s, id, to).state.items == s.items
    ensures AdvancePayout(s, id, to).Abort? ==>
              AdvancePayout(s, id, to).error == if id < |s.payouts| then IllegalTransition else PayoutNotFound
  {
  }

  // A creation is refused for one reason alone; when is in `PayoutLedger.SnapshotCommitsExactlyWhen`.
  lemma CreationIsRefusedWith(s: State, key: nat, c: Currency, rates: Rates)
    requires CreatePayout(s, key, c, rates).Abort?
    ensures CreatePayout(s, key, c, rates).error == NoEligibleFunds
  {
  }

  // Of the two guards of a payment the status is looked at first.
  lemma PaymentIsRefusedWith(s: State, id: nat)
    requires MarkPayoutPaid(s, id).Abort?
    ensures MarkPayoutPaid(s, id).error
            == if id >= |s.payouts| then PayoutNotFound
               else if s.payouts[id].status !in {Draft, Scheduled, Pending, Processing} then IllegalTransition
               else PayoutExceedsFunds
  {
  }

  // ---------------------------------------------------------------------------
  // Wallets
  // ---------------------------------------------------------------------------

  predicate IsActive(s: State, w: nat) {
    w < |s.wallets| && s.wallets[w].status == Active
  }

  function NotActive(s: State, w: nat): Error
    requires !IsActive(s, w)
  {
    if w < |s.wallets| then WalletNotActive else WalletNotFound
  }

  // A usage commission is priced before the amount and the balance are looked at.
  lemma DebitIsRefusedWith(s: State, w: nat, amount: int, basis: WalletMath.CommissionBasis, schedule: FeeSchedule,
                           meth: Option<Method>)
    requires DebitWallet(s, w, amount, basis, schedule, meth).Abort?
    ensures DebitWallet(s, w, amount, basis, schedule, meth).error
            == if !IsActive(s, w) then NotActive(s, w)
               else if basis == WalletMath.OnUsage && ComputeFee(schedule, amount, meth).Err?
                    then ComputeFee(schedule, amount, meth).error
               else if amount <= 0 then InvalidWalletAmount
               else InsufficientWalletBalance
  {
  }

  // A load commission is priced after the amount is looked at.
  lemma TopUpIsRefusedWith(s: State, w: nat, amount: int, basis: WalletMath.CommissionBasis, schedule: FeeSchedule)
    requires TopUpWallet(s, w, amount, basis, schedule).Abort?
    ensures TopUpWallet(s, w, amount, basis, schedule).error
            == if !IsActive(s, w) then NotActive(s, w)
               else if amount <= 0 then InvalidWalletAmount
               else if ComputeFee(schedule, amount, None).Err? then ComputeFee(schedule, amount, None).error
               else FeeExceedsTopUp
  {
  }

  lemma WalletRefundIsRefusedWith(s: State, w: nat, amount: int)
    requires RefundWallet(s, w, amount).Abort?
    ensures RefundWallet(s, w, amount).error == if IsActive(s, w) then InvalidWalletAmount else NotActive(s, w)
  {
  }

  lemma AdjustmentIsRefusedWith(s: State, w: nat, signed: int)
    requires AdjustWallet(s, w, signed).Abort?
    ensures AdjustWallet(s, w, signed).error == if IsActive(s, w) then InsufficientWalletBalance else NotActive(s, w)
  {
  }

  // ---------------------------------------------------------------------------
  // Splits and captures
  // ---------------------------------------------------------------------------

  // A split goes through exactly for a source that is not negative and shares of 1 to 10000 basis points,
  // at least one of them and together at most the whole.
  lemma SplitCommitsExactlyWhen(s: State, source: Source, cents: int, c: Currency, trigger: Trigger,
                                shares: seq<Shares.ShareSpec>, held: bool)
    ensures ExecuteSplit(s, source, cents, c, trigger, shares, held).Commit?
            <==> && 0 <= cents && shares != [] && Shares.TotalBps(shares) <= 10000
                 && forall i :: 0 <= i < |shares| ==> 1 <= shares[i].bps <= 10000
    ensures ExecuteSplit(s, source, cents, c, trigger, shares, held).Abort? ==>
              ExecuteSplit(s, source, cents, c, trigger, shares, held).error == InvalidShares
  {
  }

  lemma ReleaseIsRefusedWith(s: State, id: nat)
    requires ReleaseSplit(s, id).Abort?
    ensures ReleaseSplit(s, id).error == if id < |s.splits| then IllegalTransition else SplitNotFound
  {
  }

  // What the charges of a capture are priced on: all of it, or what the split leaves of it.
  function PricedOn(x: Capture): Option<int> {
    if x.rule.None? then Some(x.amount)
    else if Shares.Split(x.amount, x.rule.value).Ok? then Some(Shares.Split(x.amount, x.rule.value).value.platform)
    else None
  }

  // A capture settles exactly when there is something to settle, it has not been settled before, and its
  // charges can be priced; it changes nothing when there is nothing to do, and fails when it cannot price.
  lemma CaptureSettlesExactlyWhen(s: State, x: Capture)
    ensures var due := 0 < x.amount && !AlreadySettled(s.entries, x.intent);
            var priced := && PricedOn(x).Some? && ComputeFee(x.schedule, PricedOn(x).value, x.meth).Ok?
                          && (x.tax.Some? && !x.tax.value.exempt ==> 0 <= x.tax.value.rateBps);
            && (!due ==> SettleCapture(s, x) == Commit(s, false))
            && (due && priced ==> SettleCapture(s, x).Commit? && SettleCapture(s, x).value)
            && (due && !priced ==> SettleCapture(s, x).Abort?)
  {
    if PricedOn(x).Some? { PlanIsPricedExactlyWhen(PricedOn(x).value, x.schedule, x.reserve, x.meth, x.tax); }
  }

  // A refund is refused for one reason alone.
  lemma RefundIsRefusedWith(s: State, intent: nat, refund: nat)
    requires SettleRefund(s, intent, refund).Abort?
    ensures SettleRefund(s, intent, refund).error == RefundAfterPayout
  {
  }

  // ---------------------------------------------------------------------------
  // Disputes
  // ---------------------------------------------------------------------------

  // A resolution looks for the dispute, at its status, and only then, when it is lost, at the balances.
  lemma ResolutionIsRefusedWith(s: State, id: nat, policy: FundingPolicy)
    ensures ResolveWon(s, id).Abort? ==>
              ResolveWon(s, id).error == if id < |s.disputes| then IllegalTransition else DisputeNotFound
    ensures ResolveLost(s, id, policy).Abort? ==>
              ResolveLost(s, id, policy).error
              == if id >= |s.disputes| then DisputeNotFound
                 else if s.disputes[id].status != Open then IllegalTransition
                 else NegativeBalance
  {
  }
}
