// One tenant's database as a value, and every money-moving transaction as a function on it.
//
// A transaction commits a new state or aborts with an error and leaves the state alone. Rows are
// identified by their position in their table, entries by their position in the ledger. The class
// `TenantBooks` runs these transactions step by step; `Runs` strings them together.
module Books {
  import opened Prelude
  import opened Money
  import opened Ledger
  import opened Fees
  import Shares
  import WalletMath
  import opened Reversals
  import opened FxSettlement

  datatype PayoutStatus = Draft | Scheduled | Pending | Processing | Paid | Failed | Cancelled

  datatype Payout = Payout(key: nat, amount: int, currency: Currency, status: PayoutStatus)

  datatype Item = Item(payout: nat, amount: int)

  datatype WalletStatus = Active | Suspended | Closed

  datatype Wallet = Wallet(owner: nat, currency: Currency, balance: int, status: WalletStatus)

  datatype WalletTxKind = TopUpTx | DebitTx | RefundTx | AdjustmentTx

  datatype WalletTx = WalletTx(wallet: nat, kind: WalletTxKind, amount: int, balanceAfter: int)

  // `Held` is the source's PENDING.
  datatype SplitStatus = Held | Settled | Reversed

  datatype SplitRow = SplitRow(party: PartyId, amount: int, currency: Currency, status: SplitStatus)

  datatype Trigger = AtCapture | OnUsageOrManual

  datatype Dispute = Dispute(providerId: nat, amount: int, currency: Currency, status: DisputeStatus)

  datatype Recovery = Recovery(dispute: nat, amount: int, currency: Currency)

  // `items` is keyed by the ledger entry it reserves: the unique column of the payout item table.
  datatype State = State(
    entries: seq<Entry>,
    payouts: seq<Payout>, items: map<nat, Item>,
    wallets: seq<Wallet>, walletTxs: seq<WalletTx>,
    splits: seq<SplitRow>,
    disputes: seq<Dispute>, recoveries: seq<Recovery>)

  const EMPTY: State := State([], [], map[], [], [], [], [], [])

  datatype Tx<+T> = Commit(state: State, value: T) | Abort(error: Error)

  // The state a caller is left with.
  function After<T>(s: State, tx: Tx<T>): State {
    match tx case Commit(s', _) => s' case Abort(_) => s
  }

  // ---------------------------------------------------------------------------
  // Payouts
  // ---------------------------------------------------------------------------

  const OPEN: set<PayoutStatus> := {Draft, Scheduled, Pending, Processing}
  const LIVE: set<PayoutStatus> := {Draft, Scheduled, Pending, Processing, Paid}

  predicate CanMove(from: PayoutStatus, to: PayoutStatus) {
    match from
    case Draft => to == Scheduled || to == Cancelled
    case Scheduled => to == Pending || to == Cancelled
    case Pending => to == Processing || to == Failed || to == Cancelled
    case Processing => to == Paid || to == Failed
    case Paid => false
    case Failed => false
    case Cancelled => false
  }

  function PayoutByKey(payouts: seq<Payout>, key: nat): (r: Option<nat>)
    ensures r.Some? ==> r.value < |payouts| && payouts[r.value].key == key
    ensures r.None? ==> forall i :: 0 <= i < |payouts| ==> payouts[i].key != key
  {
    FindLast(payouts, (row: Payout) => row.key == key)
  }

  // An AVAILABLE credit of the currency that no payout item reserves.
  predicate Unpaid(es: seq<Entry>, items: map<nat, Item>, c: Currency, i: nat)
    requires i < |es|
  {
    es[i].leg.account == AVAILABLE && es[i].leg.direction == CREDIT && es[i].leg.currency == c && i !in items
  }

  // Sum of the unpaid credits of the table.
  function UnpaidCredits(es: seq<Entry>, items: map<nat, Item>, c: Currency): int {
    if es == [] then 0
    else
      var n := |es| - 1;
      UnpaidCredits(es[..n], items, c) + if Unpaid(es, items, c, n) then es[n].leg.amount else 0
  }

  // First in, first out: an unpaid credit is reserved while older unpaid credits do not already cover
  // the payable amount, for its own amount or what is still to cover, whichever is smaller.
  function Allocate(es: seq<Entry>, items: map<nat, Item>, c: Currency, payable: int, id: nat): map<nat, Item> {
    map i | 0 <= i < |es| && Unpaid(es, items, c, i) && UnpaidCredits(es[..i], items, c) < payable
        :: Item(id, Min(es[i].leg.amount, payable - UnpaidCredits(es[..i], items, c)))
  }

  function Swept(s: State, c: Currency, rates: Rates): State {
    s.(entries := Sweep(s.entries, c, rates))
  }

  // Unpaid credits less every non-payout debit of the account's history.
  function Payable(s: State, c: Currency): int {
    UnpaidCredits(s.entries, s.items, c) - Total(OtherDebitsOf(c), s.entries)
  }

  // A draft payout of `payable` with its items.
  function Snapshot(s: State, key: nat, c: Currency, payable: int): State {
    s.(items := s.items + Allocate(s.entries, s.items, c, payable, |s.payouts|),
       payouts := s.payouts + [Payout(key, payable, c, Draft)])
  }

  // Snapshot the net eligible balance into a draft payout, sweeping foreign balances first.
  function CreatePayout(s: State, key: nat, c: Currency, rates: Rates): Tx<nat> {
    match PayoutByKey(s.payouts, key)
    case Some(id) => Commit(s, id)
    case None =>
      var payable := Payable(Swept(s, c, rates), c);
      if payable <= 0 then Abort(NoEligibleFunds)
      else Commit(Snapshot(Swept(s, c, rates), key, c, payable), |s.payouts|)
  }

  function Release(items: map<nat, Item>, id: nat): map<nat, Item> {
    map i | i in items && items[i].payout != id :: items[i]
  }

  function WithStatus(payouts: seq<Payout>, id: nat, status: PayoutStatus): (r: seq<Payout>)
    requires id < |payouts|
    ensures |r| == |payouts|
  {
    payouts[id := payouts[id].(status := status)]
  }

  function CancelPayout(s: State, id: nat): Tx<()> {
    if id >= |s.payouts| then Abort(PayoutNotFound)
    else if !CanMove(s.payouts[id].status, Cancelled) then Abort(IllegalTransition)
    else Commit(s.(items := Release(s.items, id), payouts := WithStatus(s.payouts, id, Cancelled)), ())
  }

  function MarkPayoutFailed(s: State, id: nat): Tx<()> {
    if id >= |s.payouts| then Abort(PayoutNotFound)
    else if s.payouts[id].status !in OPEN then Abort(IllegalTransition)
    else Commit(s.(items := Release(s.items, id), payouts := WithStatus(s.payouts, id, Failed)), ())
  }

  function Settlement(id: nat, p: Payout): Posting {
    Move(AVAILABLE, PAID_OUT, p.amount, PAYOUT, p.currency, FromPayout(id))
  }

  function PaidOut(s: State, id: nat): State
    requires id < |s.payouts|
  {
    s.(entries := Post(s.entries, Settlement(id, s.payouts[id])), payouts := WithStatus(s.payouts, id, Paid))
  }

  function MarkPayoutPaid(s: State, id: nat): Tx<()> {
    if id >= |s.payouts| then Abort(PayoutNotFound)
    else
      var p := s.payouts[id];
      if p.status !in OPEN then Abort(IllegalTransition)
      else if Total(BalanceOf(AVAILABLE, p.currency), s.entries) < p.amount then Abort(PayoutExceedsFunds)
      else Commit(PaidOut(s, id), ())
  }

  // The transition table's moves between open states.
  function AdvancePayout(s: State, id: nat, to: PayoutStatus): Tx<()> {
    if id >= |s.payouts| then Abort(PayoutNotFound)
    else if to !in OPEN || !CanMove(s.payouts[id].status, to) then Abort(IllegalTransition)
    else Commit(s.(payouts := WithStatus(s.payouts, id, to)), ())
  }

  // ---------------------------------------------------------------------------
  // Wallets
  // ---------------------------------------------------------------------------

  function WalletByOwner(wallets: seq<Wallet>, owner: nat): (r: Option<nat>)
    ensures r.Some? ==> r.value < |wallets| && wallets[r.value].owner == owner
    ensures r.None? ==> forall i :: 0 <= i < |wallets| ==> wallets[i].owner != owner
  {
    FindLast(wallets, (row: Wallet) => row.owner == owner)
  }

  function CreateWallet(s: State, owner: nat, c: Currency): Tx<nat> {
    match WalletByOwner(s.wallets, owner)
    case Some(w) => Commit(s, w)
    case None => Commit(s.(wallets := s.wallets + [Wallet(owner, c, 0, Active)]), |s.wallets|)
  }

  // Loading a wallet for a movement, then recording the movement with its postings.
  function Moved(s: State, w: nat, kind: WalletTxKind, m: WalletMath.Movement, ps: seq<Posting>): State
    requires w < |s.wallets|
  {
    s.(entries := PostAll(s.entries, ps),
       wallets := s.wallets[w := s.wallets[w].(balance := m.balanceAfter)],
       walletTxs := s.walletTxs + [WalletTx(w, kind, m.signed, m.balanceAfter)])
  }

  predicate Loadable(s: State, w: nat) {
    w < |s.wallets| && s.wallets[w].status == Active
  }

  function LoadError(s: State, w: nat): Error {
    if w >= |s.wallets| then WalletNotFound else WalletNotActive
  }

  function TopUpPostings(w: nat, c: Currency, m: WalletMath.Movement): seq<Posting> {
    [Move(CASH, WALLET, m.gross, CAPTURE, c, FromWallet(w))]
    + if m.fee > 0 then [Move(WALLET, FEES, m.fee, FEE, c, FromWallet(w))] else []
  }

  function TopUpMovement(balance: int, amount: int, basis: WalletMath.CommissionBasis, schedule: FeeSchedule)
    : Result<WalletMath.Movement, Error>
  {
    if basis == WalletMath.OnLoad then WalletMath.TopUpWithFee(balance, amount, schedule)
    else WalletMath.TopUp(balance, amount)
  }

  function TopUpWallet(s: State, w: nat, amount: int, basis: WalletMath.CommissionBasis,
                       schedule: FeeSchedule): Tx<()>
  {
    if !Loadable(s, w) then Abort(LoadError(s, w))
    else match TopUpMovement(s.wallets[w].balance, amount, basis, schedule)
      case Err(e) => Abort(e)
      case Ok(m) => Commit(Moved(s, w, TopUpTx, m, TopUpPostings(w, s.wallets[w].currency, m)), ())
  }

  function DebitPostings(w: nat, c: Currency, m: WalletMath.Movement): seq<Posting> {
    [Move(WALLET, AVAILABLE, m.gross, CAPTURE, c, FromWallet(w))]
    + if m.fee > 0 then [Move(AVAILABLE, FEES, m.fee, FEE, c, FromWallet(w))] else []
  }

  function DebitMovement(balance: int, amount: int, basis: WalletMath.CommissionBasis, schedule: FeeSchedule,
                         meth: Option<Method>): Result<WalletMath.Movement, Error>
  {
    if basis == WalletMath.OnLoad then WalletMath.Debit(balance, amount)
    else WalletMath.DebitWithFee(balance, amount, schedule, meth)
  }

  function DebitWallet(s: State, w: nat, amount: int, basis: WalletMath.CommissionBasis, schedule: FeeSchedule,
                       meth: Option<Method>): Tx<()>
  {
    if !Loadable(s, w) then Abort(LoadError(s, w))
    else match DebitMovement(s.wallets[w].balance, amount, basis, schedule, meth)
      case Err(e) => Abort(e)
      case Ok(m) => Commit(Moved(s, w, DebitTx, m, DebitPostings(w, s.wallets[w].currency, m)), ())
  }

  function RefundWallet(s: State, w: nat, amount: int): Tx<()> {
    if !Loadable(s, w) then Abort(LoadError(s, w))
    else match WalletMath.Refund(s.wallets[w].balance, amount)
      case Err(e) => Abort(e)
      case Ok(m) =>
        Commit(Moved(s, w, RefundTx, m,
                     [Move(AVAILABLE, WALLET, amount, REFUND, s.wallets[w].currency, FromWallet(w))]), ())
  }

  function AdjustPostings(w: nat, c: Currency, m: WalletMath.Movement): seq<Posting> {
    if m.signed > 0 then [Move(AVAILABLE, WALLET, m.gross, ADJUSTMENT, c, FromWallet(w))]
    else if m.signed < 0 then [Move(WALLET, AVAILABLE, m.gross, ADJUSTMENT, c, FromWallet(w))]
    else []
  }

  function AdjustWallet(s: State, w: nat, signed: int): Tx<()> {
    if !Loadable(s, w) then Abort(LoadError(s, w))
    else match WalletMath.Adjustment(s.wallets[w].balance, signed)
      case Err(e) => Abort(e)
      case Ok(m) => Commit(Moved(s, w, AdjustmentTx, m, AdjustPostings(w, s.wallets[w].currency, m)), ())
  }

  // ---------------------------------------------------------------------------
  // Splits
  // ---------------------------------------------------------------------------

  // What each beneficiary is paid, from which account and into which.
  datatype SplitOrder = SplitOrder(source: Source, currency: Currency, from: Account, to: Account)

  function ShareMove(o: SplitOrder, party: PartyId, amount: int): Posting {
    Posting(DebitLeg(o.from, amount, SPLIT, None, o.currency), CreditLeg(o.to, amount, SPLIT, Some(party), o.currency),
            o.source)
  }

  function ShareMoves(o: SplitOrder, shares: seq<Shares.ShareSpec>, amounts: seq<int>): seq<Posting>
    requires |amounts| == |shares|
  {
    if shares == [] then []
    else
      var n := |shares| - 1;
      ShareMoves(o, shares[..n], amounts[..n]) + [ShareMove(o, shares[n].party, amounts[n])]
  }

  function ShareRows(c: Currency, status: SplitStatus, shares: seq<Shares.ShareSpec>, amounts: seq<int>): seq<SplitRow>
    requires |amounts| == |shares|
  {
    if shares == [] then []
    else
      var n := |shares| - 1;
      ShareRows(c, status, shares[..n], amounts[..n]) + [SplitRow(shares[n].party, amounts[n], c, status)]
  }

  // The platform keeps its remainder in place unless the source is a fresh capture.
  function PlatformMove(o: SplitOrder, trigger: Trigger, platform: int): seq<Posting> {
    if trigger == AtCapture && platform > 0 then [Move(o.from, AVAILABLE, platform, SPLIT, o.currency, o.source)]
    else []
  }

  function OrderFor(source: Source, c: Currency, trigger: Trigger, held: bool): SplitOrder {
    SplitOrder(source, c, if trigger == AtCapture then COLLECTED else AVAILABLE, if held then RESERVE else AVAILABLE)
  }

  function SplitPostings(o: SplitOrder, trigger: Trigger, shares: seq<Shares.ShareSpec>,
                         r: Shares.SplitResult): seq<Posting>
    requires |r.shares| == |shares|
  {
    ShareMoves(o, shares, r.shares) + PlatformMove(o, trigger, r.platform)
  }

  function ExecuteSplit(s: State, source: Source, cents: int, c: Currency, trigger: Trigger,
                        shares: seq<Shares.ShareSpec>, held: bool): Tx<()>
  {
    match Shares.Split(cents, shares)
    case Err(e) => Abort(e)
    case Ok(r) =>
      Commit(s.(entries := PostAll(s.entries, SplitPostings(OrderFor(source, c, trigger, held), trigger, shares, r)),
                splits := s.splits + ShareRows(c, if held then Held else Settled, shares, r.shares)), ())
  }

  function ReleaseMove(id: nat, row: SplitRow): Posting {
    Posting(DebitLeg(RESERVE, row.amount, RESERVE_RELEASE, Some(row.party), row.currency),
            CreditLeg(AVAILABLE, row.amount, RESERVE_RELEASE, Some(row.party), row.currency), FromSplit(id))
  }

  function ReleaseSplit(s: State, id: nat): Tx<()> {
    if id >= |s.splits| then Abort(SplitNotFound)
    else if s.splits[id].status != Held then Abort(IllegalTransition)
    else
      Commit(s.(entries := Post(s.entries, ReleaseMove(id, s.splits[id])),
                splits := s.splits[id := s.splits[id].(status := Settled)]), ())
  }

  // ---------------------------------------------------------------------------
  // Captures and refunds
  // ---------------------------------------------------------------------------

  // One capture with the tenant's configuration at that moment. `rule` is the active AT_CAPTURE rule
  // of a splitting tenant.
  datatype Capture = Capture(intent: nat, amount: int, currency: Currency, meth: Option<Method>, schedule: FeeSchedule,
                             reserve: ReservePolicy, tax: Option<TaxSpec>, rule: Option<seq<Shares.ShareSpec>>)

  predicate IsCaptureCredit(e: Entry, intent: nat) {
    && e.source == FromIntent(intent) && e.leg.category == CAPTURE
    && e.leg.account == COLLECTED && e.leg.direction == CREDIT
  }

  predicate AlreadySettled(es: seq<Entry>, intent: nat) {
    exists i :: 0 <= i < |es| && IsCaptureCredit(es[i], intent)
  }

  // The fee, tax and reserve are priced on the gross, or on the platform's remainder of a split.
  function PlanFor(x: Capture): Result<CapturePlan, Error> {
    match x.rule
    case None => PlanCapture(x.amount, x.schedule, x.reserve, x.meth, x.tax)
    case Some(shares) =>
      match Shares.Split(x.amount, shares)
      case Err(e) => Err(e)
      case Ok(r) => PlanCapture(r.platform, x.schedule, x.reserve, x.meth, x.tax)
  }

  function Charge(x: Capture, to: Account, amount: int, category: Category): seq<Posting> {
    if amount > 0
    then [Move(if x.rule.Some? then AVAILABLE else COLLECTED, to, amount, category, x.currency, FromIntent(x.intent))]
    else []
  }

  function Charges(x: Capture, plan: CapturePlan): seq<Posting> {
    Charge(x, FEES, plan.fee, FEE) + Charge(x, TAX_PAYABLE, plan.tax, TAX) + Charge(x, RESERVE, plan.reserve, CAPTURE)
    + if x.rule.None? then Charge(x, AVAILABLE, plan.net, CAPTURE) else []
  }

  function GrossMove(x: Capture): Posting {
    Move(CASH, COLLECTED, x.amount, CAPTURE, x.currency, FromIntent(x.intent))
  }

  function CaptureSplit(x: Capture): seq<Posting> {
    if x.rule.Some? && Shares.Split(x.amount, x.rule.value).Ok? then
      SplitPostings(OrderFor(FromIntent(x.intent), x.currency, AtCapture, false), AtCapture, x.rule.value,
                    Shares.Split(x.amount, x.rule.value).value)
    else []
  }

  function CaptureRows(x: Capture): seq<SplitRow> {
    if x.rule.Some? && Shares.Split(x.amount, x.rule.value).Ok? then
      ShareRows(x.currency, Settled, x.rule.value, Shares.Split(x.amount, x.rule.value).value.shares)
    else []
  }

  function CapturePostings(x: Capture, plan: CapturePlan): seq<Posting> {
    [GrossMove(x)] + CaptureSplit(x) + Charges(x, plan)
  }

  function SettleCapture(s: State, x: Capture): Tx<bool> {
    if x.amount <= 0 then Commit(s, false)
    else if AlreadySettled(s.entries, x.intent) then Commit(s, false)
    else match PlanFor(x)
      case Err(e) => Abort(e)
      case Ok(plan) =>
        Commit(s.(entries := PostAll(s.entries, CapturePostings(x, plan)), splits := s.splits + CaptureRows(x)), true)
  }

  predicate IsRefundable(e: Entry, intent: nat) {
    && e.source == FromIntent(intent) && e.leg.direction == CREDIT
    && (e.leg.account == AVAILABLE || e.leg.account == FEES || e.leg.account == RESERVE)
  }

  // The settlement credits of an intent, oldest first.
  function SettlementCredits(es: seq<Entry>, intent: nat): seq<Leg> {
    if es == [] then []
    else
      var e := es[|es| - 1];
      SettlementCredits(es[..|es| - 1], intent) + if IsRefundable(e, intent) then [e.leg] else []
  }

  // The amount of the first AVAILABLE credit, which is all the over-draw guard looks at.
  function FirstNet(credits: seq<Leg>): int {
    if credits == [] then 0
    else if credits[0].account == AVAILABLE then credits[0].amount
    else FirstNet(credits[1..])
  }

  function RefundOfCredit(leg: Leg, c: Currency, refund: nat): seq<Posting> {
    if leg.amount > 0 then [Move(leg.account, CASH, leg.amount, REFUND, c, FromRefund(refund))] else []
  }

  // Each credit's account gives the amount back to CASH, all in the first credit's currency.
  function RefundPostings(credits: seq<Leg>, c: Currency, refund: nat): seq<Posting> {
    if credits == [] then []
    else
      RefundPostings(credits[..|credits| - 1], c, refund) + RefundOfCredit(credits[|credits| - 1], c, refund)
  }

  predicate AlreadyRefunded(es: seq<Entry>, refund: nat) {
    exists i :: 0 <= i < |es| && es[i].source == FromRefund(refund)
  }

  function SettleRefund(s: State, intent: nat, refund: nat): Tx<bool> {
    if AlreadyRefunded(s.entries, refund) then Commit(s, false)
    else
      var credits := SettlementCredits(s.entries, intent);
      if credits == [] then Commit(s, false)
      else
        var c := credits[0].currency;
        if FirstNet(credits) > Total(BalanceOf(AVAILABLE, c), s.entries) then Abort(RefundAfterPayout)
        else Commit(s.(entries := PostAll(s.entries, RefundPostings(credits, c, refund))), true)
  }

  // ---------------------------------------------------------------------------
  // Disputes
  // ---------------------------------------------------------------------------

  function DisputeByProvider(disputes: seq<Dispute>, providerId: nat): (r: Option<nat>)
    ensures r.Some? ==> r.value < |disputes| && disputes[r.value].providerId == providerId
    ensures r.None? ==> forall i :: 0 <= i < |disputes| ==> disputes[i].providerId != providerId
  {
    FindLast(disputes, (row: Dispute) => row.providerId == providerId)
  }

  function CreateDispute(s: State, providerId: nat, amount: int, c: Currency): Tx<nat> {
    match DisputeByProvider(s.disputes, providerId)
    case Some(d) => Commit(s, d)
    case None => Commit(s.(disputes := s.disputes + [Dispute(providerId, amount, c, Open)]), |s.disputes|)
  }

  function Clawback(id: nat, from: Account, amount: int, c: Currency): seq<Posting> {
    if amount > 0 then [Move(from, CASH, amount, CHARGEBACK, c, FromDispute(id))] else []
  }

  function ClawbackPostings(id: nat, c: Currency, a: Allocation): seq<Posting> {
    Clawback(id, AVAILABLE, a.fromAvailable, c) + Clawback(id, RESERVE, a.fromReserve, c)
  }

  function ResolveWon(s: State, id: nat): Tx<()> {
    if id >= |s.disputes| then Abort(DisputeNotFound)
    else if !CanTransition(s.disputes[id].status, Won) then Abort(IllegalTransition)
    else Commit(s.(disputes := s.disputes[id := s.disputes[id].(status := Won)]), ())
  }

  // The funding decision on the balances the loss finds.
  function LossAllocation(s: State, id: nat, policy: FundingPolicy): Result<Allocation, Error>
    requires id < |s.disputes|
  {
    var d := s.disputes[id];
    FundReversal(policy, d.amount, Total(BalanceOf(AVAILABLE, d.currency), s.entries),
                 Total(BalanceOf(RESERVE, d.currency), s.entries))
  }

  function ClawedBack(s: State, id: nat, a: Allocation): State
    requires id < |s.disputes|
  {
    var d := s.disputes[id];
    s.(entries := PostAll(s.entries, ClawbackPostings(id, d.currency, a)),
       disputes := s.disputes[id := d.(status := Lost)],
       recoveries := s.recoveries + if a.uncovered > 0 then [Recovery(id, a.uncovered, d.currency)] else [])
  }

  function ResolveLost(s: State, id: nat, policy: FundingPolicy): Tx<()> {
    if id >= |s.disputes| then Abort(DisputeNotFound)
    else if !CanTransition(s.disputes[id].status, Lost) then Abort(IllegalTransition)
    else match LossAllocation(s, id, policy)
      case Err(e) => Abort(e)
      case Ok(a) => Commit(ClawedBack(s, id, a), ())
  }
}
