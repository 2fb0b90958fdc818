// The chart of the ledger: which accounts a posting of each category moves between, and which row it is for.
module Journal {
  import opened Prelude
  import opened Money
  import opened Ledger
  import opened Fees
  import opened FxSettlement
  import opened Reversals
  import opened Books
  import opened Runs
  import opened Rows
  import Shares
  import WalletMath

  datatype Kind = Kind(from: Account, to: Account, category: Category)

  function KindOf(p: Posting): Kind {
    Kind(p.debit.account, p.credit.account, p.debit.category)
  }

  predicate Untagged(p: Posting) {
    p.debit.party == None && p.credit.party == None
  }

  const OF_INTENTS: set<Kind> :=
    {Kind(CASH, COLLECTED, CAPTURE), Kind(COLLECTED, AVAILABLE, CAPTURE), Kind(COLLECTED, RESERVE, CAPTURE),
     Kind(AVAILABLE, RESERVE, CAPTURE), Kind(COLLECTED, FEES, FEE), Kind(AVAILABLE, FEES, FEE),
     Kind(COLLECTED, TAX_PAYABLE, TAX), Kind(AVAILABLE, TAX_PAYABLE, TAX)}

  const OF_WALLETS: set<Kind> :=
    {Kind(CASH, WALLET, CAPTURE), Kind(WALLET, FEES, FEE), Kind(WALLET, AVAILABLE, CAPTURE), Kind(AVAILABLE, FEES, FEE),
     Kind(AVAILABLE, WALLET, REFUND), Kind(AVAILABLE, WALLET, ADJUSTMENT), Kind(WALLET, AVAILABLE, ADJUSTMENT)}

  // A beneficiary's share, or the platform's remainder of a capture.
  predicate IsShare(p: Posting) {
    && p.debit.category == SPLIT && p.debit.party == None
    && p.debit.account in {COLLECTED, AVAILABLE} && p.credit.account in {AVAILABLE, RESERVE}
    && (p.credit.party == None ==> p.debit.account == COLLECTED && p.credit.account == AVAILABLE)
  }

  // What a posting can be for each thing it can be for: a paid payout in full, a movement of a wallet in
  // its currency, the release of a settled share to its party, the clawback of a lost dispute, a refund to
  // the customer, a part of a capture, a conversion.
  predicate IsFor(s: State, p: Posting) {
    match p.source
    case FromPayout(id) =>
      && id < |s.payouts| && s.payouts[id].status == Paid && Untagged(p)
      && KindOf(p) == Kind(AVAILABLE, PAID_OUT, PAYOUT)
      && p.debit.amount == s.payouts[id].amount && p.debit.currency == s.payouts[id].currency
    case FromWallet(w) =>
      w < |s.wallets| && KindOf(p) in OF_WALLETS && Untagged(p) && p.debit.currency == s.wallets[w].currency
    case FromSplit(id) =>
      && id < |s.splits| && s.splits[id].status == Settled && KindOf(p) == Kind(RESERVE, AVAILABLE, RESERVE_RELEASE)
      && p.debit.party == p.credit.party == Some(s.splits[id].party)
      && p.debit.amount == s.splits[id].amount && p.debit.currency == s.splits[id].currency
    case FromDispute(id) =>
      && id < |s.disputes| && s.disputes[id].status == Lost && Untagged(p)
      && KindOf(p) in {Kind(AVAILABLE, CASH, CHARGEBACK), Kind(RESERVE, CASH, CHARGEBACK)}
      && p.debit.currency == s.disputes[id].currency && p.debit.amount <= s.disputes[id].amount
    case FromRefund(_) =>
      && KindOf(p) in {Kind(AVAILABLE, CASH, REFUND), Kind(FEES, CASH, REFUND), Kind(RESERVE, CASH, REFUND)}
      && Untagged(p)
    case FromIntent(_) => KindOf(p) in OF_INTENTS && Untagged(p)
    case FromFxConversion =>
      KindOf(p) in {Kind(AVAILABLE, CASH, ADJUSTMENT), Kind(CASH, AVAILABLE, ADJUSTMENT)} && Untagged(p)
    case FromFxAdjustment =>
      KindOf(p) in {Kind(CASH, FEES, FX_ADJUSTMENT), Kind(FEES, CASH, FX_ADJUSTMENT)} && Untagged(p)
    case FromCaller(_, _) => false
  }

  predicate Charted(s: State, p: Posting) {
    p.debit.category == p.credit.category && (IsShare(p) || IsFor(s, p))
  }

  // The k-th posting, as its two rows record it.
  function PostingAt(es: seq<Entry>, k: nat): Posting
    requires 2 * k + 1 < |es|
  {
    Posting(es[2 * k].leg, es[2 * k + 1].leg, es[2 * k].source)
  }

  ghost predicate AllCharted(s: State, es: seq<Entry>) {
    && |es| % 2 == 0
    && forall k: nat :: 2 * k + 1 < |es| ==> Charted(s, PostingAt(es, k)) && es[2 * k + 1].source == es[2 * k].source
  }

  predicate ChartedPostings(s: State, ps: seq<Posting>) {
    forall i :: 0 <= i < |ps| ==> Charted(s, ps[i])
  }

  lemma RowsKeptKeepsChart(s: State, t: State, p: Posting)
    requires Charted(s, p) && RowsKept(s, t)
    ensures Charted(t, p)
  {
    if !IsShare(p) {
      match p.source
      case FromPayout(id) => assert PayoutKept(s.payouts[id], t.payouts[id]);
      case FromSplit(id) => assert SplitKept(s.splits[id], t.splits[id]);
      case FromDispute(id) => assert DisputeKept(s.disputes[id], t.disputes[id]);
      case _ =>
    }
  }

  lemma OneMoreCharted(s: State, es: seq<Entry>, p: Posting)
    requires AllCharted(s, es) && Charted(s, p)
    ensures AllCharted(s, Post(es, p))
  {
    var after := Post(es, p);
    forall k: nat | 2 * k + 1 < |after|
      ensures Charted(s, PostingAt(after, k)) && after[2 * k + 1].source == after[2 * k].source
    {
      if 2 * k + 1 < |es| { assert PostingAt(after, k) == PostingAt(es, k); }
    }
  }

  lemma {:induction false} AllPostedCharted(s: State, es: seq<Entry>, ps: seq<Posting>)
    requires AllCharted(s, es) && ChartedPostings(s, ps)
    ensures AllCharted(s, PostAll(es, ps))
  {
    if ps != [] {
      AllPostedCharted(s, es, ps[..|ps| - 1]);
      OneMoreCharted(s, PostAll(es, ps[..|ps| - 1]), ps[|ps| - 1]);
    }
  }

  // ---------------------------------------------------------------------------
  // What each operation posts
  // ---------------------------------------------------------------------------

  lemma {:induction false} SharesAreCharted(s: State, o: SplitOrder, shares: seq<Shares.ShareSpec>, amounts: seq<int>)
    requires |amounts| == |shares| && o.from in {COLLECTED, AVAILABLE} && o.to in {AVAILABLE, RESERVE}
    ensures ChartedPostings(s, ShareMoves(o, shares, amounts))
  {
    if shares != [] { SharesAreCharted(s, o, shares[..|shares| - 1], amounts[..|shares| - 1]); }
  }

  lemma SplitIsCharted(s: State, source: Source, c: Currency, trigger: Trigger, held: bool,
                       shares: seq<Shares.ShareSpec>, r: Shares.SplitResult)
    requires |r.shares| == |shares|
    ensures ChartedPostings(s, SplitPostings(OrderFor(source, c, trigger, held), trigger, shares, r))
  {
    SharesAreCharted(s, OrderFor(source, c, trigger, held), shares, r.shares);
  }

  lemma ChargesAreCharted(s: State, x: Capture, plan: CapturePlan)
    ensures ChartedPostings(s, Charges(x, plan))
  {
    ChargeIsCharted(s, x, FEES, plan.fee, FEE);
    ChargeIsCharted(s, x, TAX_PAYABLE, plan.tax, TAX);
    ChargeIsCharted(s, x, RESERVE, plan.reserve, CAPTURE);
    if x.rule.None? { ChargeIsCharted(s, x, AVAILABLE, plan.net, CAPTURE); }
    ChartedConcat(s, Charge(x, FEES, plan.fee, FEE) + Charge(x, TAX_PAYABLE, plan.tax, TAX),
                  Charge(x, RESERVE, plan.reserve, CAPTURE));
    ChartedConcat(s, Charge(x, FEES, plan.fee, FEE), Charge(x, TAX_PAYABLE, plan.tax, TAX));
  }

  lemma ChartedConcat(s: State, a: seq<Posting>, b: seq<Posting>)
    requires ChartedPostings(s, a) && ChartedPostings(s, b)
    ensures ChartedPostings(s, a + b)
  {
  }

  lemma ChargeIsCharted(s: State, x: Capture, to: Account, amount: int, category: Category)
    requires Kind(if x.rule.Some? then AVAILABLE else COLLECTED, to, category) in OF_INTENTS
    ensures ChartedPostings(s, Charge(x, to, amount, category))
  {
  }

  lemma CaptureIsCharted(s: State, x: Capture, plan: CapturePlan)
    ensures ChartedPostings(s, CapturePostings(x, plan))
  {
    ChargesAreCharted(s, x, plan);
    if x.rule.Some? && Shares.Split(x.amount, x.rule.value).Ok? {
      SplitIsCharted(s, FromIntent(x.intent), x.currency, AtCapture, false, x.rule.value,
                     Shares.Split(x.amount, x.rule.value).value);
    }
  }

  lemma {:induction false} CreditsAreReversible(es: seq<Entry>, intent: nat)
    ensures forall i :: 0 <= i < |SettlementCredits(es, intent)| ==>
              SettlementCredits(es, intent)[i].account in {AVAILABLE, FEES, RESERVE}
  {
    if es != [] { CreditsAreReversible(es[..|es| - 1], intent); }
  }

  lemma {:induction false} RefundIsCharted(s: State, credits: seq<Leg>, c: Currency, refund: nat)
    requires forall i :: 0 <= i < |credits| ==> credits[i].account in {AVAILABLE, FEES, RESERVE}
    ensures ChartedPostings(s, RefundPostings(credits, c, refund))
  {
    if credits != [] { RefundIsCharted(s, credits[..|credits| - 1], c, refund); }
  }

  // A conversion at any two rates: the exchange is an adjustment, its gain or loss an FX adjustment.
  lemma PlanIsCharted(s: State, from: Currency, to: Currency, amount: int, locked: int, reference: int)
    requires PlanFxConversion(from, to, amount, locked, reference).Ok?
    ensures ChartedPostings(s, PlanFxConversion(from, to, amount, locked, reference).value.postings)
  {
  }

  lemma {:induction false} SweepIsCharted(s: State, es: seq<Entry>, to: Currency, rates: Rates, n: nat)
    requires n <= |SUPPORTED_CURRENCIES|
    ensures ChartedPostings(s, SweepPlan(es, to, rates, n))
  {
    if n > 0 {
      var c := SUPPORTED_CURRENCIES[n - 1];
      SweepIsCharted(s, es, to, rates, n - 1);
      ConversionIsCharted(s, c, to, Total(BalanceOf(AVAILABLE, c), es), rates);
    }
  }

  lemma ConversionIsCharted(s: State, c: Currency, to: Currency, b: int, rates: Rates)
    ensures ChartedPostings(s, ConversionOf(c, to, b, rates))
  {
    if c != to && b > 0 {
      ConversionNonNegative(b, RateOf(rates, c));
      PlanIsCharted(s, c, to, b, RateOf(rates, c), RateOf(rates, c));
    }
  }

  lemma WalletStepIsCharted(s: State, op: Op)
    requires IsWalletOp(op)
    ensures ChartedPostings(Step(s, op), StepPostings(s, op))
  {
  }

  lemma OtherStepIsCharted(s: State, op: Op)
    requires !IsWalletOp(op) && !op.DoSettleCapture? && !op.DoSettleRefund? && !op.DoExecuteSplit?
    ensures ChartedPostings(Step(s, op), StepPostings(s, op))
  {
    if op.DoCreatePayout? { SweepIsCharted(Step(s, op), s.entries, op.c, op.rates, |SUPPORTED_CURRENCIES|); }
  }

  lemma IntentStepIsCharted(s: State, op: Op)
    requires op.DoSettleCapture? || op.DoSettleRefund? || op.DoExecuteSplit?
    ensures ChartedPostings(Step(s, op), StepPostings(s, op))
  {
    match op
    case DoSettleCapture(x) => if PlanFor(x).Ok? { CaptureIsCharted(Step(s, op), x, PlanFor(x).value); }
    case DoSettleRefund(intent, refund) =>
      var credits := SettlementCredits(s.entries, intent);
      CreditsAreReversible(s.entries, intent);
      if credits != [] { RefundIsCharted(Step(s, op), credits, credits[0].currency, refund); }
    case DoExecuteSplit(source, cents, c, trigger, shares, held) =>
      if Shares.Split(cents, shares).Ok? {
        SplitIsCharted(Step(s, op), source, c, trigger, held, shares, Shares.Split(cents, shares).value);
      }
  }

  lemma StepKeepsChart(s: State, op: Op)
    requires AllCharted(s, s.entries)
    ensures AllCharted(Step(s, op), Step(s, op).entries)
  {
    var t := Step(s, op);
    StepKeepsRows(s, op);
    forall k: nat | 2 * k + 1 < |s.entries|
      ensures Charted(t, PostingAt(s.entries, k))
    {
      RowsKeptKeepsChart(s, t, PostingAt(s.entries, k));
    }
    if IsWalletOp(op) {
      WalletStepIsCharted(s, op);
    } else if op.DoSettleCapture? || op.DoSettleRefund? || op.DoExecuteSplit? {
      IntentStepIsCharted(s, op);
    } else {
      OtherStepIsCharted(s, op);
    }
    StepPosts(s, op);
    AllPostedCharted(t, s.entries, StepPostings(s, op));
  }

  // Every posting of every reachable ledger is on the chart, in one category on both legs, and is for a
  // row that is there, in its currency, with its amount and party, and in the status that posts it.
  lemma {:induction false} AlwaysOnTheChart(ops: seq<Op>)
    ensures AllCharted(Run(EMPTY, ops), Run(EMPTY, ops).entries)
  {
    if ops != [] {
      AlwaysOnTheChart(ops[..|ops| - 1]);
      StepKeepsChart(Run(EMPTY, ops[..|ops| - 1]), ops[|ops| - 1]);
    }
  }

  // ---------------------------------------------------------------------------
  // Operation by operation
  // ---------------------------------------------------------------------------

  // The kinds of postings each operation makes. A plain capture settles out of COLLECTED; with a split its
  // charges come out of the platform's AVAILABLE.
  function KindsOf(op: Op): set<Kind> {
    match op
    case DoCreatePayout(_, _, _) => {Kind(AVAILABLE, CASH, ADJUSTMENT), Kind(CASH, AVAILABLE, ADJUSTMENT)}
    case DoCancelPayout(_) => {}
    case DoMarkPayoutFailed(_) => {}
    case DoMarkPayoutPaid(_) => {Kind(AVAILABLE, PAID_OUT, PAYOUT)}
    case DoAdvancePayout(_, _) => {}
    case DoCreateWallet(_, _) => {}
    case DoTopUp(_, _, _, _) => {Kind(CASH, WALLET, CAPTURE), Kind(WALLET, FEES, FEE)}
    case DoDebit(_, _, _, _, _) => {Kind(WALLET, AVAILABLE, CAPTURE), Kind(AVAILABLE, FEES, FEE)}
    case DoRefundWallet(_, _) => {Kind(AVAILABLE, WALLET, REFUND)}
    case DoAdjustWallet(_, _) => {Kind(AVAILABLE, WALLET, ADJUSTMENT), Kind(WALLET, AVAILABLE, ADJUSTMENT)}
    case DoExecuteSplit(_, _, _, AtCapture, _, held) =>
      {Kind(COLLECTED, if held then RESERVE else AVAILABLE, SPLIT), Kind(COLLECTED, AVAILABLE, SPLIT)}
    case DoExecuteSplit(_, _, _, OnUsageOrManual, _, held) =>
      {Kind(AVAILABLE, if held then RESERVE else AVAILABLE, SPLIT)}
    case DoReleaseSplit(_) => {Kind(RESERVE, AVAILABLE, RESERVE_RELEASE)}
    case DoSettleCapture(x) =>
      if x.rule.None? then
        {Kind(CASH, COLLECTED, CAPTURE), Kind(COLLECTED, FEES, FEE), Kind(COLLECTED, TAX_PAYABLE, TAX),
         Kind(COLLECTED, RESERVE, CAPTURE), Kind(COLLECTED, AVAILABLE, CAPTURE)}
      else
        {Kind(CASH, COLLECTED, CAPTURE), Kind(COLLECTED, AVAILABLE, SPLIT), Kind(AVAILABLE, FEES, FEE),
         Kind(AVAILABLE, TAX_PAYABLE, TAX), Kind(AVAILABLE, RESERVE, CAPTURE)}
    case DoSettleRefund(_, _) =>
      {Kind(AVAILABLE, CASH, REFUND), Kind(FEES, CASH, REFUND), Kind(RESERVE, CASH, REFUND)}
    case DoCreateDispute(_, _, _) => {}
    case DoResolveWon(_) => {}
    case DoResolveLost(_, _) => {Kind(AVAILABLE, CASH, CHARGEBACK), Kind(RESERVE, CASH, CHARGEBACK)}
  }

  // What an operation's postings are filed under.
  predicate IsSourceOf(op: Op, source: Source) {
    match op
    case DoCreatePayout(_, _, _) => source == FromFxConversion
    case DoMarkPayoutPaid(id) => source == FromPayout(id)
    case DoTopUp(w, _, _, _) => source == FromWallet(w)
    case DoDebit(w, _, _, _, _) => source == FromWallet(w)
    case DoRefundWallet(w, _) => source == FromWallet(w)
    case DoAdjustWallet(w, _) => source == FromWallet(w)
    case DoExecuteSplit(given, _, _, _, _, _) => source == given
    case DoReleaseSplit(id) => source == FromSplit(id)
    case DoSettleCapture(x) => source == FromIntent(x.intent)
    case DoSettleRefund(_, refund) => source == FromRefund(refund)
    case DoResolveLost(id, _) => source == FromDispute(id)
    case _ => false
  }

  predicate IsOf(op: Op, p: Posting) {
    KindOf(p) in KindsOf(op) && IsSourceOf(op, p.source)
  }

  predicate AreOf(op: Op, ps: seq<Posting>) {
    forall i :: 0 <= i < |ps| ==> IsOf(op, ps[i])
  }

  lemma {:induction false} SharesAreOf(op: Op, o: SplitOrder, shares: seq<Shares.ShareSpec>, amounts: seq<int>)
    requires |amounts| == |shares| && Kind(o.from, o.to, SPLIT) in KindsOf(op) && IsSourceOf(op, o.source)
    ensures AreOf(op, ShareMoves(o, shares, amounts))
  {
    if shares != [] { SharesAreOf(op, o, shares[..|shares| - 1], amounts[..|shares| - 1]); }
  }

  lemma ChargesAreOf(x: Capture, plan: CapturePlan)
    ensures AreOf(DoSettleCapture(x), Charges(x, plan))
  {
  }

  lemma CaptureIsOf(x: Capture, plan: CapturePlan)
    ensures AreOf(DoSettleCapture(x), CapturePostings(x, plan))
  {
    ChargesAreOf(x, plan);
    if x.rule.Some? && Shares.Split(x.amount, x.rule.value).Ok? {
      SharesAreOf(DoSettleCapture(x), OrderFor(FromIntent(x.intent), x.currency, AtCapture, false), x.rule.value,
                  Shares.Split(x.amount, x.rule.value).value.shares);
    }
  }

  lemma {:induction false} RefundIsOf(intent: nat, credits: seq<Leg>, c: Currency, refund: nat)
    requires forall i :: 0 <= i < |credits| ==> credits[i].account in {AVAILABLE, FEES, RESERVE}
    ensures AreOf(DoSettleRefund(intent, refund), RefundPostings(credits, c, refund))
  {
    if credits != [] { RefundIsOf(intent, credits[..|credits| - 1], c, refund); }
  }

  lemma {:induction false} SweepIsOf(key: nat, es: seq<Entry>, to: Currency, rates: Rates, n: nat)
    requires n <= |SUPPORTED_CURRENCIES|
    ensures AreOf(DoCreatePayout(key, to, rates), SweepPlan(es, to, rates, n))
  {
    if n > 0 {
      var c := SUPPORTED_CURRENCIES[n - 1];
      SweepIsOf(key, es, to, rates, n - 1);
      ConversionIsOf(key, c, to, Total(BalanceOf(AVAILABLE, c), es), rates);
    }
  }

  lemma ConversionIsOf(key: nat, c: Currency, to: Currency, b: int, rates: Rates)
    ensures AreOf(DoCreatePayout(key, to, rates), ConversionOf(c, to, b, rates))
  {
  }

  lemma WalletStepIsOf(s: State, op: Op)
    requires IsWalletOp(op)
    ensures AreOf(op, StepPostings(s, op))
  {
  }

  lemma OtherStepIsOf(s: State, op: Op)
    requires !IsWalletOp(op) && !op.DoSettleCapture? && !op.DoSettleRefund? && !op.DoExecuteSplit?
    ensures AreOf(op, StepPostings(s, op))
  {
    if op.DoCreatePayout? { SweepIsOf(op.key, s.entries, op.c, op.rates, |SUPPORTED_CURRENCIES|); }
  }

  lemma IntentStepIsOf(s: State, op: Op)
    requires op.DoSettleCapture? || op.DoSettleRefund? || op.DoExecuteSplit?
    ensures AreOf(op, StepPostings(s, op))
  {
    match op
    case DoSettleCapture(x) => if PlanFor(x).Ok? { CaptureIsOf(x, PlanFor(x).value); }
    case DoSettleRefund(intent, refund) =>
      var credits := SettlementCredits(s.entries, intent);
      CreditsAreReversible(s.entries, intent);
      if credits != [] { RefundIsOf(intent, credits, credits[0].currency, refund); }
    case DoExecuteSplit(source, cents, c, trigger, shares, held) =>
      if Shares.Split(cents, shares).Ok? {
        SharesAreOf(op, OrderFor(source, c, trigger, held), shares, Shares.Split(cents, shares).value.shares);
      }
  }

  // What an operation adds to the ledger, from any state: postings of its own kinds, filed under its own
  // source, and none if it has no kinds.
  lemma StepPostsItsKinds(s: State, op: Op, k: nat)
    requires |s.entries| % 2 == 0 && |s.entries| <= 2 * k && 2 * k + 1 < |Step(s, op).entries|
    ensures IsOf(op, PostingAt(Step(s, op).entries, k))
  {
    if IsWalletOp(op) {
      WalletStepIsOf(s, op);
    } else if op.DoSettleCapture? || op.DoSettleRefund? || op.DoExecuteSplit? {
      IntentStepIsOf(s, op);
    } else {
      OtherStepIsOf(s, op);
    }
    StepPosts(s, op);
    PostedInOrder(s.entries, StepPostings(s, op), k);
  }

  // The postings of a batch are recorded one after the other.
  lemma {:induction false} PostedInOrder(es: seq<Entry>, ps: seq<Posting>, k: nat)
    requires |es| % 2 == 0 && |es| <= 2 * k && 2 * k + 1 < |PostAll(es, ps)|
    ensures k - |es| / 2 < |ps| && PostingAt(PostAll(es, ps), k) == ps[k - |es| / 2]
  {
    if ps != [] {
      var before := PostAll(es, ps[..|ps| - 1]);
      PostAllExtends(es, ps[..|ps| - 1]);
      if 2 * k + 1 < |before| { PostedInOrder(es, ps[..|ps| - 1], k); }
    }
  }
}
