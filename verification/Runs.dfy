// Whole runs: any sequence of the tenant's money-moving transactions, in any order and with any
// arguments, and what every reachable state satisfies.
module Runs {
  import opened Prelude
  import opened Money
  import opened Ledger
  import opened Fees
  import opened FxSettlement
  import opened Reversals
  import opened Books
  import opened WalletLedger
  import opened SplitLedger
  import opened DisputeLedger
  import opened PayoutLedger
  import opened CaptureLedger
  import opened RefundLedger
  import opened Transactions
  import Shares
  import WalletMath

  datatype Op =
    | DoCreatePayout(key: nat, c: Currency, rates: Rates)
    | DoCancelPayout(id: nat)
    | DoMarkPayoutFailed(id: nat)
    | DoMarkPayoutPaid(id: nat)
    | DoAdvancePayout(id: nat, to: PayoutStatus)
    | DoCreateWallet(owner: nat, c: Currency)
    | DoTopUp(w: nat, amount: int, basis: WalletMath.CommissionBasis, schedule: FeeSchedule)
    | DoDebit(w: nat, amount: int, basis: WalletMath.CommissionBasis, schedule: FeeSchedule, meth: Option<Method>)
    | DoRefundWallet(w: nat, amount: int)
    | DoAdjustWallet(w: nat, amount: int)
    | DoExecuteSplit(source: Source, cents: int, c: Currency, trigger: Trigger, shares: seq<Shares.ShareSpec>,
                     held: bool)
    | DoReleaseSplit(id: nat)
    | DoSettleCapture(x: Capture)
    | DoSettleRefund(intent: nat, refund: nat)
    | DoCreateDispute(providerId: nat, amount: int, c: Currency)
    | DoResolveWon(id: nat)
    | DoResolveLost(id: nat, policy: FundingPolicy)

  function Step(s: State, op: Op): State {
    match op
    case DoCreatePayout(key, c, rates) => After(s, CreatePayout(s, key, c, rates))
    case DoCancelPayout(id) => After(s, CancelPayout(s, id))
    case DoMarkPayoutFailed(id) => After(s, MarkPayoutFailed(s, id))
    case DoMarkPayoutPaid(id) => After(s, MarkPayoutPaid(s, id))
    case DoAdvancePayout(id, to) => After(s, AdvancePayout(s, id, to))
    case DoCreateWallet(owner, c) => After(s, CreateWallet(s, owner, c))
    case DoTopUp(w, amount, basis, schedule) => After(s, TopUpWallet(s, w, amount, basis, schedule))
    case DoDebit(w, amount, basis, schedule, meth) => After(s, DebitWallet(s, w, amount, basis, schedule, meth))
    case DoRefundWallet(w, amount) => After(s, RefundWallet(s, w, amount))
    case DoAdjustWallet(w, amount) => After(s, AdjustWallet(s, w, amount))
    case DoExecuteSplit(source, cents, c, trigger, shares, held) =>
      After(s, ExecuteSplit(s, source, cents, c, trigger, shares, held))
    case DoReleaseSplit(id) => After(s, ReleaseSplit(s, id))
    case DoSettleCapture(x) => After(s, SettleCapture(s, x))
    case DoSettleRefund(intent, refund) => After(s, SettleRefund(s, intent, refund))
    case DoCreateDispute(providerId, amount, c) => After(s, CreateDispute(s, providerId, amount, c))
    case DoResolveWon(id) => After(s, ResolveWon(s, id))
    case DoResolveLost(id, policy) => After(s, ResolveLost(s, id, policy))
  }

  function Run(s: State, ops: seq<Op>): State {
    if ops == [] then s else Step(Run(s, ops[..|ops| - 1]), ops[|ops| - 1])
  }

  predicate IsPayoutOp(op: Op) {
    op.DoCreatePayout? || op.DoCancelPayout? || op.DoMarkPayoutFailed? || op.DoMarkPayoutPaid? || op.DoAdvancePayout?
  }

  predicate IsWalletOp(op: Op) {
    op.DoCreateWallet? || op.DoTopUp? || op.DoDebit? || op.DoRefundWallet? || op.DoAdjustWallet?
  }

  predicate IsDisputeOp(op: Op) {
    op.DoCreateDispute? || op.DoResolveWon? || op.DoResolveLost?
  }

  lemma DisputeOpeningKeepsInv(s: State, providerId: nat, amount: int, c: Currency)
    requires Inv(s)
    ensures Inv(Step(s, DoCreateDispute(providerId, amount, c)))
  {
    CreateDisputeKeepsInv(s, providerId, amount, c);
  }

  lemma WalletOpeningKeepsInv(s: State, owner: nat, c: Currency)
    requires Inv(s)
    ensures Inv(Step(s, DoCreateWallet(owner, c)))
  {
    CreateWalletKeepsInv(s, owner, c);
  }

  lemma LossStepKeepsInv(s: State, id: nat, policy: FundingPolicy)
    requires Inv(s)
    ensures Inv(Step(s, DoResolveLost(id, policy)))
  {
    LostKeepsInv(s, id, policy);
  }

  lemma DisputeStepKeepsInv(s: State, op: Op)
    requires Inv(s) && IsDisputeOp(op)
    ensures Inv(Step(s, op))
  {
    match op
    case DoCreateDispute(providerId, amount, c) => DisputeOpeningKeepsInv(s, providerId, amount, c);
    case DoResolveWon(id) => WonKeepsInv(s, id);
    case DoResolveLost(id, policy) => LossStepKeepsInv(s, id, policy);
  }

  lemma PayoutStepKeepsInv(s: State, op: Op)
    requires Inv(s) && IsPayoutOp(op)
    ensures Inv(Step(s, op))
  {
    match op
    case DoCreatePayout(key, c, rates) => CreatePayoutKeepsInv(s, key, c, rates);
    case DoCancelPayout(id) => CancelKeepsInv(s, id);
    case DoMarkPayoutFailed(id) => FailKeepsInv(s, id);
    case DoMarkPayoutPaid(id) => PaidKeepsInv(s, id);
    case DoAdvancePayout(id, to) => AdvanceKeepsInv(s, id, to);
  }

  lemma ChargedStepKeepsInv(s: State, op: Op)
    requires Inv(s) && (op.DoTopUp? || op.DoDebit?)
    ensures Inv(Step(s, op))
  {
    match op
    case DoTopUp(w, amount, basis, schedule) => TopUpKeepsInv(s, w, amount, basis, schedule);
    case DoDebit(w, amount, basis, schedule, meth) => DebitKeepsInv(s, w, amount, basis, schedule, meth);
  }

  lemma UnchargedStepKeepsInv(s: State, op: Op)
    requires Inv(s) && (op.DoRefundWallet? || op.DoAdjustWallet?)
    ensures Inv(Step(s, op))
  {
    match op
    case DoRefundWallet(w, amount) => RefundWalletKeepsInv(s, w, amount);
    case DoAdjustWallet(w, amount) => AdjustKeepsInv(s, w, amount);
  }

  lemma WalletStepKeepsInv(s: State, op: Op)
    requires Inv(s) && IsWalletOp(op)
    ensures Inv(Step(s, op))
  {
    if op.DoCreateWallet? {
      WalletOpeningKeepsInv(s, op.owner, op.c);
    } else if op.DoTopUp? || op.DoDebit? {
      ChargedStepKeepsInv(s, op);
    } else {
      UnchargedStepKeepsInv(s, op);
    }
  }

  lemma StepKeepsInv(s: State, op: Op)
    requires Inv(s)
    ensures Inv(Step(s, op))
  {
    if IsPayoutOp(op) {
      PayoutStepKeepsInv(s, op);
    } else if IsWalletOp(op) {
      WalletStepKeepsInv(s, op);
    } else if IsDisputeOp(op) {
      DisputeStepKeepsInv(s, op);
    } else {
      match op
      case DoExecuteSplit(source, cents, c, trigger, shares, held) =>
        ExecuteSplitKeepsInv(s, source, cents, c, trigger, shares, held);
      case DoReleaseSplit(id) => ReleaseKeepsInv(s, id);
      case DoSettleCapture(x) => CaptureKeepsInv(s, x);
      case DoSettleRefund(intent, refund) => RefundKeepsInv(s, intent, refund);
    }
  }

  lemma {:induction false} RunKeepsInv(ops: seq<Op>)
    ensures Inv(Run(EMPTY, ops))
  {
    if ops == [] {
      EmptyInv();
    } else {
      RunKeepsInv(ops[..|ops| - 1]);
      StepKeepsInv(Run(EMPTY, ops[..|ops| - 1]), ops[|ops| - 1]);
    }
  }

  // ---------------------------------------------------------------------------
  // What every reachable state satisfies
  // ---------------------------------------------------------------------------

  // Double entry: every currency nets to zero, and an entry's audit snapshot is the running balance
  // exactly unless it is a non-zero credit of a posting within one account.
  lemma LedgerAlwaysBalances(ops: seq<Op>)
    ensures forall c: Currency :: Total(NetOf(c), Run(EMPTY, ops).entries) == 0
    ensures SnapshotsExact(Run(EMPTY, ops).entries)
  {
    RunKeepsInv(ops);
    SnapshotsRightExactlyWhen(Run(EMPTY, ops).entries);
  }

  // Payouts: PAID_OUT is the sum of the paid payouts of each currency, each settled by exactly one
  // posting and no other payout by any; each credit is reserved for at most its own amount.
  lemma PaidOutIsThePaidPayouts(ops: seq<Op>)
    ensures var s := Run(EMPTY, ops);
            && (forall c: Currency :: Total(BalanceOf(PAID_OUT, c), s.entries) == PayoutSum(s.payouts, c, {Paid}))
            && (forall p :: 0 <= p < |s.payouts| ==>
                  Total(SettlementsOf(p), s.entries) == if s.payouts[p].status == Paid then 1 else 0)
            && (forall i :: i in s.items ==> i < |s.entries| && s.items[i].amount <= s.entries[i].leg.amount)
  {
    RunKeepsInv(ops);
    var s := Run(EMPTY, ops);
    forall i | i in s.items
      ensures i < |s.entries| && s.items[i].amount <= s.entries[i].leg.amount
    {
      assert GoodItem(s, i);
    }
  }

  // Payouts: in every reachable state a new snapshot is what AVAILABLE holds beyond all open payouts
  // and all stranded remainders, so together with them it is covered.
  lemma SnapshotsAreCovered(ops: seq<Op>, key: nat, c: Currency, rates: Rates)
    requires var s := Run(EMPTY, ops); CreatePayout(s, key, c, rates).Commit? && PayoutByKey(s.payouts, key).None?
    ensures var s, t := Run(EMPTY, ops), CreatePayout(Run(EMPTY, ops), key, c, rates).state;
            var available := Total(BalanceOf(AVAILABLE, c), t.entries);
            && t.payouts[|s.payouts|].amount
               == available - PayoutSum(s.payouts, c, OPEN) - Stranded(t.entries, s.items, c)
            && PayoutSum(t.payouts, c, OPEN) <= available
  {
    RunKeepsInv(ops);
    SnapshotIsCovered(Run(EMPTY, ops), key, c, rates);
  }

  // Wallets: per currency the wallets add up to the WALLET account, every cached balance is the
  // non-negative sum of its own transactions, and every transaction snapshot is the running sum.
  lemma WalletsMatchControlAccount(ops: seq<Op>)
    ensures var s := Run(EMPTY, ops);
            && (forall c: Currency :: WalletSum(s.wallets, c) == Total(BalanceOf(WALLET, c), s.entries))
            && (forall w :: 0 <= w < |s.wallets| ==> 0 <= s.wallets[w].balance == TxSum(s.walletTxs, w))
            && (forall k :: 0 <= k < |s.walletTxs| ==>
                  s.walletTxs[k].balanceAfter == TxSum(s.walletTxs[..k + 1], s.walletTxs[k].wallet))
  {
    RunKeepsInv(ops);
  }

  // Splits: each party's tagged balances are its held and settled rows, and no row is released twice.
  lemma PartiesMatchSplits(ops: seq<Op>, p: PartyId, c: Currency, k: nat)
    ensures var s := Run(EMPTY, ops);
            && Total(PartyBalanceOf(RESERVE, c, p), s.entries) == SplitSum(s.splits, p, c, Held)
            && Total(PartyBalanceOf(AVAILABLE, c, p), s.entries) == SplitSum(s.splits, p, c, Settled)
            && Total(ReleasesOf(k), s.entries) <= 1
  {
    RunKeepsInv(ops);
  }

  // Disputes: whatever the order and number of resolves, a lost dispute has been clawed back and
  // invoiced for exactly its amount, and any other not at all.
  lemma DisputesClawedOnce(ops: seq<Op>, d: nat)
    requires d < |Run(EMPTY, ops).disputes|
    ensures var s := Run(EMPTY, ops);
            Total(ClawedFor(d), s.entries) + RecoverySum(s.recoveries, d)
            == if s.disputes[d].status == Lost then s.disputes[d].amount else 0
  {
    RunKeepsInv(ops);
  }

  // ---------------------------------------------------------------------------
  // The table only grows
  // ---------------------------------------------------------------------------

  predicate Extends(es: seq<Entry>, later: seq<Entry>) {
    |es| <= |later| && later[..|es|] == es
  }

  // The postings an operation adds to the table: none unless it commits.
  function StepPostings(s: State, op: Op): seq<Posting> {
    match op
    case DoCreatePayout(key, c, rates) =>
      if CreatePayout(s, key, c, rates).Commit? && PayoutByKey(s.payouts, key).None?
      then SweepPlan(s.entries, c, rates, |SUPPORTED_CURRENCIES|) else []
    case DoCancelPayout(_) => []
    case DoMarkPayoutFailed(_) => []
    case DoMarkPayoutPaid(id) => if MarkPayoutPaid(s, id).Commit? then [Settlement(id, s.payouts[id])] else []
    case DoAdvancePayout(_, _) => []
    case DoCreateWallet(_, _) => []
    case DoTopUp(w, amount, basis, schedule) =>
      if TopUpWallet(s, w, amount, basis, schedule).Commit?
      then TopUpPostings(w, s.wallets[w].currency, TopUpMovement(s.wallets[w].balance, amount, basis, schedule).value)
      else []
    case DoDebit(w, amount, basis, schedule, meth) =>
      if DebitWallet(s, w, amount, basis, schedule, meth).Commit?
      then DebitPostings(w, s.wallets[w].currency,
                         DebitMovement(s.wallets[w].balance, amount, basis, schedule, meth).value)
      else []
    case DoRefundWallet(w, amount) =>
      if RefundWallet(s, w, amount).Commit?
      then [Move(AVAILABLE, WALLET, amount, REFUND, s.wallets[w].currency, FromWallet(w))] else []
    case DoAdjustWallet(w, amount) =>
      if AdjustWallet(s, w, amount).Commit?
      then AdjustPostings(w, s.wallets[w].currency, WalletMath.Adjustment(s.wallets[w].balance, amount).value) else []
    case DoExecuteSplit(source, cents, c, trigger, shares, held) =>
      if ExecuteSplit(s, source, cents, c, trigger, shares, held).Commit?
      then SplitPostings(OrderFor(source, c, trigger, held), trigger, shares, Shares.Split(cents, shares).value) else []
    case DoReleaseSplit(id) => if ReleaseSplit(s, id).Commit? then [ReleaseMove(id, s.splits[id])] else []
    case DoSettleCapture(x) =>
      if SettleCapture(s, x).Commit? && SettleCapture(s, x).value then CapturePostings(x, PlanFor(x).value) else []
    case DoSettleRefund(intent, refund) =>
      if SettleRefund(s, intent, refund).Commit? && SettleRefund(s, intent, refund).value
      then RefundPostings(SettlementCredits(s.entries, intent), SettlementCredits(s.entries, intent)[0].currency,
                          refund)
      else []
    case DoCreateDispute(_, _, _) => []
    case DoResolveWon(_) => []
    case DoResolveLost(id, policy) =>
      if ResolveLost(s, id, policy).Commit?
      then ClawbackPostings(id, s.disputes[id].currency, LossAllocation(s, id, policy).value) else []
  }

  // A step changes the table by its postings and nothing else.
  lemma WalletStepPosts(s: State, op: Op)
    requires IsWalletOp(op)
    ensures Step(s, op).entries == PostAll(s.entries, StepPostings(s, op))
  {
  }

  lemma StepPosts(s: State, op: Op)
    ensures Step(s, op).entries == PostAll(s.entries, StepPostings(s, op))
  {
    if IsWalletOp(op) {
      WalletStepPosts(s, op);
    } else {
      match op
      case DoMarkPayoutPaid(id) =>
        if MarkPayoutPaid(s, id).Commit? { OnePosting(s.entries, Settlement(id, s.payouts[id])); }
      case DoReleaseSplit(id) =>
        if ReleaseSplit(s, id).Commit? { OnePosting(s.entries, ReleaseMove(id, s.splits[id])); }
      case _ =>
    }
  }

  lemma StepExtends(s: State, op: Op)
    ensures Extends(s.entries, Step(s, op).entries)
  {
    StepPosts(s, op);
    PostAllExtends(s.entries, StepPostings(s, op));
  }

  lemma {:induction false} RunExtends(s: State, ops: seq<Op>)
    ensures Extends(s.entries, Run(s, ops).entries)
  {
    if ops != [] {
      var mid := Run(s, ops[..|ops| - 1]);
      RunExtends(s, ops[..|ops| - 1]);
      StepExtends(mid, ops[|ops| - 1]);
      var later := Run(s, ops).entries;
      assert later[..|s.entries|] == later[..|mid.entries|][..|s.entries|];
    }
  }

  // A settled capture stays settled: after any run, settling the intent again changes nothing.
  lemma ReplayAfterAnyRun(s: State, x: Capture, ops: seq<Op>, again: Capture)
    requires SettleCapture(s, x).Commit? && SettleCapture(s, x).value && again.intent == x.intent
    ensures var t := Run(SettleCapture(s, x).state, ops);
            SettleCapture(t, again) == Commit(t, false)
  {
    RunExtends(SettleCapture(s, x).state, ops);
    ReplayChangesNothing(s, x, Run(SettleCapture(s, x).state, ops), again);
  }

  // A refund that posted anything stays refunded: after any run the same refund id changes nothing.
  lemma RefundReplayAfterAnyRun(s: State, intent: nat, refund: nat, ops: seq<Op>, other: nat)
    requires SettleRefund(s, intent, refund).Commit? && SettleRefund(s, intent, refund).state != s
    ensures var t := Run(SettleRefund(s, intent, refund).state, ops);
            SettleRefund(t, other, refund) == Commit(t, false)
  {
    var u := SettleRefund(s, intent, refund).state;
    SecondRefundIsNoOp(s, intent, refund);
    var i :| 0 <= i < |u.entries| && u.entries[i].source == FromRefund(refund);
    RunExtends(u, ops);
    assert Run(u, ops).entries[i] == u.entries[i];
  }

  // The entries a run has added.
  function Since(u: State, ops: seq<Op>): (since: seq<Entry>)
    ensures Run(u, ops).entries == u.entries + since
  {
    RunExtends(u, ops);
    Run(u, ops).entries[|u.entries|..]
  }

  // Only a capture of the intent, or a split that a caller files under it, posts in an intent's name.
  predicate Names(op: Op, intent: nat) {
    op.DoExecuteSplit? && op.source == FromIntent(intent)
  }

  lemma {:induction false} SharesCarryTheirSource(o: SplitOrder, shares: seq<Shares.ShareSpec>, amounts: seq<int>)
    requires |amounts| == |shares|
    ensures forall p :: p in ShareMoves(o, shares, amounts) ==> p.source == o.source
  {
    if shares != [] { SharesCarryTheirSource(o, shares[..|shares| - 1], amounts[..|shares| - 1]); }
  }

  lemma CapturePostingsCarryTheirSource(x: Capture, plan: CapturePlan)
    ensures forall p :: p in CapturePostings(x, plan) ==> p.source == FromIntent(x.intent)
  {
    if x.rule.Some? && Shares.Split(x.amount, x.rule.value).Ok? {
      SharesCarryTheirSource(OrderFor(FromIntent(x.intent), x.currency, AtCapture, false), x.rule.value,
                             Shares.Split(x.amount, x.rule.value).value.shares);
    }
  }

  lemma SplitNamesOthers(s: State, op: Op, intent: nat)
    requires op.DoExecuteSplit? && !Names(op, intent)
    ensures forall p :: p in StepPostings(s, op) ==> p.source != FromIntent(intent)
  {
    if Shares.Split(op.cents, op.shares).Ok? {
      SharesCarryTheirSource(OrderFor(op.source, op.c, op.trigger, op.held), op.shares,
                             Shares.Split(op.cents, op.shares).value.shares);
    }
  }

  lemma CaptureNamesOthers(s: State, op: Op, intent: nat)
    requires op.DoSettleCapture? && AlreadySettled(s.entries, intent)
    ensures forall p :: p in StepPostings(s, op) ==> p.source != FromIntent(intent)
  {
    if SettleCapture(s, op.x).Commit? && SettleCapture(s, op.x).value {
      assert op.x.intent != intent;
      CapturePostingsCarryTheirSource(op.x, PlanFor(op.x).value);
      assert StepPostings(s, op) == CapturePostings(op.x, PlanFor(op.x).value);
    } else {
      assert StepPostings(s, op) == [];
    }
  }

  lemma RefundNamesOthers(s: State, op: Op, intent: nat)
    requires op.DoSettleRefund?
    ensures forall p :: p in StepPostings(s, op) ==> p.source != FromIntent(intent)
  {
    var credits := SettlementCredits(s.entries, op.intent);
    if credits != [] { RefundPostingsCarryTheirSource(credits, credits[0].currency, op.refund); }
  }

  lemma StepNamesOthers(s: State, op: Op, intent: nat)
    requires AlreadySettled(s.entries, intent) && !Names(op, intent)
    ensures forall p :: p in StepPostings(s, op) ==> p.source != FromIntent(intent)
  {
    if op.DoExecuteSplit? {
      SplitNamesOthers(s, op, intent);
    } else if op.DoSettleCapture? {
      CaptureNamesOthers(s, op, intent);
    } else if op.DoSettleRefund? {
      RefundNamesOthers(s, op, intent);
    } else if op.DoCreatePayout? {
      SweepPostingsAreAdjustments(s.entries, op.c, op.rates, |SUPPORTED_CURRENCIES|);
    }
  }

  // Rows appended by postings of other sources have other sources.
  lemma {:induction false} PostedByOthers(es: seq<Entry>, ps: seq<Posting>, source: Source)
    requires forall p :: p in ps ==> p.source != source
    ensures |es| <= |PostAll(es, ps)| && PostAll(es, ps)[..|es|] == es
    ensures forall k :: |es| <= k < |PostAll(es, ps)| ==> PostAll(es, ps)[k].source != source
  {
    if ps != [] {
      var n := |ps| - 1;
      assert ps[n] in ps;
      PostedByOthers(es, ps[..n], source);
      PostEffect(NetOf(MAD), PostAll(es, ps[..n]), ps[n]);
    }
  }

  lemma {:induction false} RunNamesOthers(u: State, ops: seq<Op>, intent: nat)
    requires AlreadySettled(u.entries, intent) && forall op :: op in ops ==> !Names(op, intent)
    ensures AlreadySettled(Run(u, ops).entries, intent) && Extends(u.entries, Run(u, ops).entries)
    ensures forall k :: |u.entries| <= k < |Run(u, ops).entries| ==> Run(u, ops).entries[k].source != FromIntent(intent)
  {
    if ops != [] {
      var n := |ops| - 1;
      var before := Run(u, ops[..n]);
      assert ops[n] in ops;
      RunNamesOthers(u, ops[..n], intent);
      RunExtends(u, ops);
      StepPosts(before, ops[n]);
      StepNamesOthers(before, ops[n], intent);
      PostedByOthers(before.entries, StepPostings(before, ops[n]), FromIntent(intent));
      var i :| 0 <= i < |before.entries| && IsCaptureCredit(before.entries[i], intent);
      assert Run(u, ops).entries[i] == before.entries[i];
      assert forall k :: |u.entries| <= k < |before.entries| ==> Run(u, ops).entries[k] == before.entries[k];
    }
  }

  // A capture, any run in which no caller files a split under its intent: the ledger is the captured one
  // with what others have posted since.
  lemma CapturedThenAnyRun(s: State, x: Capture, ops: seq<Op>)
    requires SettleCapture(s, x).Commit? && SettleCapture(s, x).value
    requires forall e :: e in s.entries ==> e.source != FromIntent(x.intent)
    requires forall op :: op in ops ==> !Names(op, x.intent)
    ensures var u := SettleCapture(s, x).state; CapturedThen(s, x, Run(u, ops), Since(u, ops))
  {
    var u := SettleCapture(s, x).state;
    CaptureLeavesItsMark(s, x);
    RunNamesOthers(u, ops, x.intent);
    forall e | e in Since(u, ops)
      ensures e.source != FromIntent(x.intent)
    {
      var k :| 0 <= k < |Since(u, ops)| && Since(u, ops)[k] == e;
      assert Run(u, ops).entries[|u.entries| + k] == e;
    }
  }

  // Capture, such a run, refund: every balance is what the run alone made of it, up to the residue; and
  // the refund undoes the capture exactly when it is one of the undoable ones.
  lemma RefundAfterAnyRun(s: State, x: Capture, ops: seq<Op>, refund: nat, a: Account, c: Currency)
    requires SettleCapture(s, x).Commit? && SettleCapture(s, x).value
    requires forall e :: e in s.entries ==> e.source != FromIntent(x.intent)
    requires forall op :: op in ops ==> !Names(op, x.intent)
    requires var t := Run(SettleCapture(s, x).state, ops);
             SettleRefund(t, x.intent, refund).Commit? && SettleRefund(t, x.intent, refund).value
    ensures var u := SettleCapture(s, x).state;
            var after := SettleRefund(Run(u, ops), x.intent, refund).state.entries;
            && Total(BalanceOf(a, c), after)
               == Total(BalanceOf(a, c), s.entries) + Total(BalanceOf(a, c), Since(u, ops))
                  + (if c == x.currency then Residue(x, PlanFor(x).value, a) else 0)
            && (Restored(s.entries, Since(u, ops), after) <==> IsUndoable(x, PlanFor(x).value))
  {
    var u := SettleCapture(s, x).state;
    CapturedThenAnyRun(s, x, ops);
    RefundUndoesCapture(s, x, Run(u, ops), Since(u, ops), refund, a, c);
    ExactInverseExactlyWhen(s, x, Run(u, ops), Since(u, ops), refund);
  }
}
