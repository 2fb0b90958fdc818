// What every transaction moves, account by account and currency by currency: nothing is moved that
// is not listed here.
module Movements {
  import opened Prelude
  import opened Money
  import opened Ledger
  import opened Fees
  import opened FxSettlement
  import opened Reversals
  import opened Books
  import opened WalletLedger
  import opened DisputeLedger
  import opened CaptureLedger
  import Shares
  import WalletMath

  // The commission a wallet movement should carry: on the load or on the usage, by the basis.
  function Commission(schedule: FeeSchedule, amount: int, meth: Option<Method>, charged: bool): int {
    if charged && ComputeFee(schedule, amount, meth).Ok? then ComputeFee(schedule, amount, meth).value else 0
  }

  // Wallet `w` moves by `signed`, the movement is recorded under its kind with the balance it leaves, and
  // no other row outside the ledger is written.
  predicate WritesOneMovement(s: State, t: State, w: nat, kind: WalletTxKind, signed: int)
    requires w < |s.wallets|
  {
    var balance := s.wallets[w].balance + signed;
    t == s.(entries := t.entries, wallets := s.wallets[w := s.wallets[w].(balance := balance)],
            walletTxs := s.walletTxs + [WalletTx(w, kind, signed, balance)])
  }

  // A top-up takes the gross from the customer, credits the wallet with what a load commission leaves
  // of it and books the commission.
  lemma TopUpMoves(s: State, w: nat, amount: int, basis: WalletMath.CommissionBasis, schedule: FeeSchedule,
                   a: Account, c: Currency)
    requires TopUpWallet(s, w, amount, basis, schedule).Commit?
    ensures var t := TopUpWallet(s, w, amount, basis, schedule).state;
            var fee := Commission(schedule, amount, None, basis == WalletMath.OnLoad);
            && WritesOneMovement(s, t, w, TopUpTx, amount - fee)
            && Total(BalanceOf(a, c), t.entries) - Total(BalanceOf(a, c), s.entries)
               == (if c != s.wallets[w].currency then 0
                   else match a
                     case CASH => -amount
                     case WALLET => amount - fee
                     case FEES => fee
                     case _ => 0)
  {
    TopUpIsRecorded(s, w, amount, basis, schedule);
    TopUpBalances(s, w, amount, basis, schedule, a, c);
  }

  lemma TopUpIsRecorded(s: State, w: nat, amount: int, basis: WalletMath.CommissionBasis, schedule: FeeSchedule)
    requires TopUpWallet(s, w, amount, basis, schedule).Commit?
    ensures WritesOneMovement(s, TopUpWallet(s, w, amount, basis, schedule).state, w, TopUpTx,
                              amount - Commission(schedule, amount, None, basis == WalletMath.OnLoad))
  {
  }

  lemma TopUpBalances(s: State, w: nat, amount: int, basis: WalletMath.CommissionBasis, schedule: FeeSchedule,
                      a: Account, c: Currency)
    requires TopUpWallet(s, w, amount, basis, schedule).Commit?
    ensures var fee := Commission(schedule, amount, None, basis == WalletMath.OnLoad);
            Total(BalanceOf(a, c), TopUpWallet(s, w, amount, basis, schedule).state.entries)
            - Total(BalanceOf(a, c), s.entries)
            == (if c != s.wallets[w].currency then 0
                else match a
                  case CASH => -amount
                  case WALLET => amount - fee
                  case FEES => fee
                  case _ => 0)
  {
    var wal := s.wallets[w];
    var m := TopUpMovement(wal.balance, amount, basis, schedule).value;
    PostAllEffect(BalanceOf(a, c), s.entries, TopUpPostings(w, wal.currency, m));
    OneOrTwoEffects(BalanceOf(a, c), Move(CASH, WALLET, m.gross, CAPTURE, wal.currency, FromWallet(w)),
                    Move(WALLET, FEES, m.fee, FEE, wal.currency, FromWallet(w)), m.fee > 0);
  }

  // A debit releases the amount into the tenant's earnings and takes a usage commission out of those.
  lemma DebitMoves(s: State, w: nat, amount: int, basis: WalletMath.CommissionBasis, schedule: FeeSchedule,
                   meth: Option<Method>, a: Account, c: Currency)
    requires DebitWallet(s, w, amount, basis, schedule, meth).Commit?
    ensures var t := DebitWallet(s, w, amount, basis, schedule, meth).state;
            var fee := Commission(schedule, amount, meth, basis == WalletMath.OnUsage);
            && WritesOneMovement(s, t, w, DebitTx, -amount)
            && Total(BalanceOf(a, c), t.entries) - Total(BalanceOf(a, c), s.entries)
               == (if c != s.wallets[w].currency then 0
                   else match a
                     case WALLET => -amount
                     case AVAILABLE => amount - fee
                     case FEES => fee
                     case _ => 0)
  {
    var wal := s.wallets[w];
    var m := DebitMovement(wal.balance, amount, basis, schedule, meth).value;
    PostAllEffect(BalanceOf(a, c), s.entries, DebitPostings(w, wal.currency, m));
    OneOrTwoEffects(BalanceOf(a, c), Move(WALLET, AVAILABLE, m.gross, CAPTURE, wal.currency, FromWallet(w)),
                    Move(AVAILABLE, FEES, m.fee, FEE, wal.currency, FromWallet(w)), m.fee > 0);
  }

  // A debit goes through exactly when the wallet is active and holds the positive amount, and, on the
  // usage basis, the amount can be priced.
  lemma DebitCommitsExactlyWhen(s: State, w: nat, amount: int, basis: WalletMath.CommissionBasis, schedule: FeeSchedule,
                                meth: Option<Method>)
    ensures DebitWallet(s, w, amount, basis, schedule, meth).Commit?
            <==> && w < |s.wallets| && s.wallets[w].status == Active && 0 < amount <= s.wallets[w].balance
                 && (basis == WalletMath.OnUsage ==> ComputeFee(schedule, amount, meth).Ok?)
  {
  }

  // A top-up goes through exactly when the wallet is active, the amount positive and, on the load basis,
  // priced at less than itself.
  lemma TopUpCommitsExactlyWhen(s: State, w: nat, amount: int, basis: WalletMath.CommissionBasis, schedule: FeeSchedule)
    ensures TopUpWallet(s, w, amount, basis, schedule).Commit?
            <==> && w < |s.wallets| && s.wallets[w].status == Active && 0 < amount
                 && (basis == WalletMath.OnLoad ==>
                       ComputeFee(schedule, amount, None).Ok? && ComputeFee(schedule, amount, None).value < amount)
  {
  }

  // A wallet refund moves a positive amount out of the tenant's earnings, and asks for nothing else but an
  // active wallet.
  lemma WalletRefundMoves(s: State, w: nat, amount: int, a: Account, c: Currency)
    ensures RefundWallet(s, w, amount).Commit? <==> w < |s.wallets| && s.wallets[w].status == Active && 0 < amount
    ensures RefundWallet(s, w, amount).Commit? ==>
              var t := RefundWallet(s, w, amount).state;
              && WritesOneMovement(s, t, w, RefundTx, amount)
              && Total(BalanceOf(a, c), t.entries) - Total(BalanceOf(a, c), s.entries)
                 == (if c != s.wallets[w].currency then 0
                     else match a
                       case WALLET => amount
                       case AVAILABLE => -amount
                       case _ => 0)
  {
    if RefundWallet(s, w, amount).Commit? {
      var p := Move(AVAILABLE, WALLET, amount, REFUND, s.wallets[w].currency, FromWallet(w));
      PostAllEffect(BalanceOf(a, c), s.entries, [p]);
      EffectsOfOne(BalanceOf(a, c), p);
    }
  }

  // A refund undoes a debit of the same amount, except that the commission stays with the platform at
  // the tenant's expense.
  lemma RefundUndoesDebit(s: State, w: nat, amount: int, basis: WalletMath.CommissionBasis, schedule: FeeSchedule,
                          meth: Option<Method>, a: Account, c: Currency)
    requires DebitWallet(s, w, amount, basis, schedule, meth).Commit?
    ensures var t := DebitWallet(s, w, amount, basis, schedule, meth).state;
            var fee := Commission(schedule, amount, meth, basis == WalletMath.OnUsage);
            && RefundWallet(t, w, amount).Commit?
            && RefundWallet(t, w, amount).state.wallets == s.wallets
            && Total(BalanceOf(a, c), RefundWallet(t, w, amount).state.entries) - Total(BalanceOf(a, c), s.entries)
               == (if c != s.wallets[w].currency then 0
                   else match a
                     case AVAILABLE => -fee
                     case FEES => fee
                     case _ => 0)
  {
    DebitCommitsExactlyWhen(s, w, amount, basis, schedule, meth);
    DebitMoves(s, w, amount, basis, schedule, meth, a, c);
    WalletRefundMoves(DebitWallet(s, w, amount, basis, schedule, meth).state, w, amount, a, c);
  }

  // An adjustment moves its signed amount between the tenant and the wallet, and commits exactly when
  // it leaves the wallet non-negative.
  lemma AdjustmentMoves(s: State, w: nat, signed: int, a: Account, c: Currency)
    ensures AdjustWallet(s, w, signed).Commit?
            <==> w < |s.wallets| && s.wallets[w].status == Active && 0 <= s.wallets[w].balance + signed
    ensures AdjustWallet(s, w, signed).Commit? ==>
              var t := AdjustWallet(s, w, signed).state;
              && WritesOneMovement(s, t, w, AdjustmentTx, signed)
              && Total(BalanceOf(a, c), t.entries) - Total(BalanceOf(a, c), s.entries)
                 == (if c != s.wallets[w].currency then 0
                     else match a
                       case WALLET => signed
                       case AVAILABLE => -signed
                       case _ => 0)
  {
    if AdjustWallet(s, w, signed).Commit? {
      var cur, m := s.wallets[w].currency, WalletMath.Adjustment(s.wallets[w].balance, signed).value;
      PostAllEffect(BalanceOf(a, c), s.entries, AdjustPostings(w, cur, m));
      EffectsOfOne(BalanceOf(a, c), Move(AVAILABLE, WALLET, m.gross, ADJUSTMENT, cur, FromWallet(w)));
      EffectsOfOne(BalanceOf(a, c), Move(WALLET, AVAILABLE, m.gross, ADJUSTMENT, cur, FromWallet(w)));
    }
  }

  // One row per beneficiary, in their order, and no other row outside the ledger.
  predicate WritesTheShares(s: State, t: State, shares: seq<Shares.ShareSpec>, amounts: seq<int>, c: Currency,
                            status: SplitStatus)
    requires |amounts| == |shares|
  {
    && t == s.(entries := t.entries, splits := t.splits) && s.splits <= t.splits
    && |t.splits| == |s.splits| + |shares|
    && forall k :: 0 <= k < |shares| ==>
         t.splits[|s.splits| + k] == SplitRow(shares[k].party, amounts[k], c, status)
  }

  lemma {:induction false} RowsOfShares(c: Currency, status: SplitStatus, shares: seq<Shares.ShareSpec>,
                                        amounts: seq<int>)
    requires |amounts| == |shares|
    ensures var rows := ShareRows(c, status, shares, amounts);
            |rows| == |shares|
            && forall k :: 0 <= k < |shares| ==> rows[k] == SplitRow(shares[k].party, amounts[k], c, status)
  {
    if shares != [] { RowsOfShares(c, status, shares[..|shares| - 1], amounts[..|shares| - 1]); }
  }

  // A split pays the beneficiaries' total into the held or the available account. At capture the whole
  // amount leaves COLLECTED, the platform's remainder for AVAILABLE; otherwise only the beneficiaries'
  // total leaves AVAILABLE.
  lemma SplitMoves(s: State, source: Source, cents: int, c0: Currency, trigger: Trigger, shares: seq<Shares.ShareSpec>,
                   held: bool, a: Account, c: Currency)
    requires ExecuteSplit(s, source, cents, c0, trigger, shares, held).Commit?
    ensures Shares.Split(cents, shares).Ok?
    ensures var t := ExecuteSplit(s, source, cents, c0, trigger, shares, held).state;
            var r := Shares.Split(cents, shares).value;
            && WritesTheShares(s, t, shares, r.shares, c0, if held then Held else Settled)
            && Total(BalanceOf(a, c), t.entries) - Total(BalanceOf(a, c), s.entries)
            == if c != c0 then 0
               else (if a == (if held then RESERVE else AVAILABLE) then cents - r.platform else 0)
                    + (if trigger == AtCapture
                       then (if a == AVAILABLE then r.platform else 0) - (if a == COLLECTED then cents else 0)
                       else if a == AVAILABLE then r.platform - cents else 0)
  {
    var r, o := Shares.Split(cents, shares).value, OrderFor(source, c0, trigger, held);
    PostAllEffect(BalanceOf(a, c), s.entries, SplitPostings(o, trigger, shares, r));
    SplitPostingsMove(o, trigger, shares, r, a, c);
    PlatformNonNegative(cents, shares);
    SplitIsRecorded(s, source, cents, c0, trigger, shares, held);
  }

  lemma SplitIsRecorded(s: State, source: Source, cents: int, c: Currency, trigger: Trigger,
                        shares: seq<Shares.ShareSpec>, held: bool)
    requires ExecuteSplit(s, source, cents, c, trigger, shares, held).Commit?
    ensures WritesTheShares(s, ExecuteSplit(s, source, cents, c, trigger, shares, held).state, shares,
                            Shares.Split(cents, shares).value.shares, c, if held then Held else Settled)
  {
    RowsOfShares(c, if held then Held else Settled, shares, Shares.Split(cents, shares).value.shares);
  }

  lemma SplitPostingsMove(o: SplitOrder, trigger: Trigger, shares: seq<Shares.ShareSpec>, r: Shares.SplitResult,
                          a: Account, c: Currency)
    requires |r.shares| == |shares| && 0 <= r.platform
    ensures var paid, kept := Shares.Sum(r.shares), if trigger == AtCapture then r.platform else 0;
            Effects(BalanceOf(a, c), SplitPostings(o, trigger, shares, r))
            == if c != o.currency then 0
               else (if a == o.to then paid else 0) + (if a == AVAILABLE then kept else 0)
                    - (if a == o.from then paid + kept else 0)
  {
    EffectsConcat(BalanceOf(a, c), ShareMoves(o, shares, r.shares), PlatformMove(o, trigger, r.platform));
    ShareMovesBalance(o, shares, r.shares, a, c);
    PlatformMoves(o, trigger, r.platform, a, c);
  }

  lemma PlatformMoves(o: SplitOrder, trigger: Trigger, platform: int, a: Account, c: Currency)
    requires 0 <= platform
    ensures var kept := if trigger == AtCapture then platform else 0;
            Effects(BalanceOf(a, c), PlatformMove(o, trigger, platform))
            == if c != o.currency then 0 else (if a == AVAILABLE then kept else 0) - (if a == o.from then kept else 0)
  {
    OptionalEffect(BalanceOf(a, c), Move(o.from, AVAILABLE, platform, SPLIT, o.currency, o.source),
                   trigger == AtCapture && platform > 0);
  }

  lemma PlatformNonNegative(cents: int, shares: seq<Shares.ShareSpec>)
    requires Shares.Split(cents, shares).Ok?
    ensures var r := Shares.Split(cents, shares).value;
            0 <= r.platform && Shares.Sum(r.shares) + r.platform == cents
  {
    Shares.BeneficiaryBounds(cents, shares);
  }

  // A release moves the row's amount from the party's RESERVE to its AVAILABLE.
  lemma ReleaseMoves(s: State, id: nat, a: Account, c: Currency)
    requires ReleaseSplit(s, id).Commit?
    ensures var t, row := ReleaseSplit(s, id).state, s.splits[id];
            && t == s.(entries := t.entries, splits := s.splits[id := row.(status := Settled)])
            && Total(BalanceOf(a, c), t.entries) - Total(BalanceOf(a, c), s.entries)
               == (if c != row.currency then 0
                   else match a
                     case RESERVE => -row.amount
                     case AVAILABLE => row.amount
                     case _ => 0)
            && Total(PartyBalanceOf(a, c, row.party), t.entries) - Total(PartyBalanceOf(a, c, row.party), s.entries)
               == Total(BalanceOf(a, c), t.entries) - Total(BalanceOf(a, c), s.entries)
  {
    PostEffect(BalanceOf(a, c), s.entries, ReleaseMove(id, s.splits[id]));
    PostEffect(PartyBalanceOf(a, c, s.splits[id].party), s.entries, ReleaseMove(id, s.splits[id]));
  }

  // Creating a payout moves nothing but what its sweep does; finding one under the same key, or nothing
  // to pay out, moves nothing at all.
  lemma CreatePayoutMoves(s: State, key: nat, to: Currency, rates: Rates, a: Account, c: Currency)
    ensures var tx := CreatePayout(s, key, to, rates);
            Total(BalanceOf(a, c), After(s, tx).entries) - Total(BalanceOf(a, c), s.entries)
            == if tx.Commit? && PayoutByKey(s.payouts, key).None?
               then SweepChange(s.entries, to, rates, |SUPPORTED_CURRENCIES|, a, c)
               else 0
  {
    SweepMeaning(s.entries, to, rates, a, c);
  }

  // Paying a payout moves its amount from AVAILABLE to PAID_OUT, and goes through exactly when the
  // payout is open and AVAILABLE covers it.
  lemma PaymentMoves(s: State, id: nat, a: Account, c: Currency)
    ensures MarkPayoutPaid(s, id).Commit?
            <==> id < |s.payouts| && s.payouts[id].status in OPEN
                 && s.payouts[id].amount <= Total(BalanceOf(AVAILABLE, s.payouts[id].currency), s.entries)
    ensures MarkPayoutPaid(s, id).Commit? ==>
              var t, p := MarkPayoutPaid(s, id).state, s.payouts[id];
              && t == s.(entries := t.entries, payouts := s.payouts[id := p.(status := Paid)])
              && Total(BalanceOf(a, c), t.entries) - Total(BalanceOf(a, c), s.entries)
                 == (if c != p.currency then 0
                     else match a
                       case AVAILABLE => -p.amount
                       case PAID_OUT => p.amount
                       case _ => 0)
  {
    if MarkPayoutPaid(s, id).Commit? { PostEffect(BalanceOf(a, c), s.entries, Settlement(id, s.payouts[id])); }
  }

  // What a clawback adds to each account: the funded parts leave AVAILABLE and RESERVE for CASH.
  function ClawbackChange(funded: Allocation, a: Account): int {
    match a
    case AVAILABLE => -funded.fromAvailable
    case RESERVE => -funded.fromReserve
    case CASH => funded.fromAvailable + funded.fromReserve
    case _ => 0
  }

  lemma ClawbackChanges(id: nat, currency: Currency, funded: Allocation, a: Account, c: Currency)
    requires 0 <= funded.fromAvailable && 0 <= funded.fromReserve
    ensures Effects(BalanceOf(a, c), ClawbackPostings(id, currency, funded))
            == if c == currency then ClawbackChange(funded, a) else 0
  {
    ClawbackEffects(BalanceOf(a, c), id, currency, funded);
  }

  // A lost dispute takes exactly the funded parts out of AVAILABLE and RESERVE, and CASH gets back the
  // disputed amount less what is left to invoice.
  lemma LossMoves(s: State, id: nat, policy: FundingPolicy, a: Account, c: Currency)
    requires ResolveLost(s, id, policy).Commit?
    ensures LossAllocation(s, id, policy).Ok?
    ensures var t, d, funded := ResolveLost(s, id, policy).state, s.disputes[id], LossAllocation(s, id, policy).value;
            && Total(BalanceOf(a, c), t.entries) - Total(BalanceOf(a, c), s.entries)
               == (if c == d.currency then ClawbackChange(funded, a) else 0)
            && ClawbackChange(funded, CASH) == d.amount - funded.uncovered
  {
    var funded := LossAllocation(s, id, policy).value;
    PostAllEffect(BalanceOf(a, c), s.entries, ClawbackPostings(id, s.disputes[id].currency, funded));
    ClawbackChanges(id, s.disputes[id].currency, funded, a, c);
  }
}
