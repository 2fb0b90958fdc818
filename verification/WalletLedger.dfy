// The wallet sub-ledger against its control account: what the wallet rows, their transactions and
// the ledger's WALLET account have to do with each other.
module WalletLedger {
  import opened Prelude
  import opened Money
  import opened Ledger
  import opened Fees
  import opened FxSettlement
  import opened Books
  import WalletMath

  function WalletSum(wallets: seq<Wallet>, c: Currency): int {
    if wallets == [] then 0
    else
      var n := |wallets| - 1;
      WalletSum(wallets[..n], c) + if wallets[n].currency == c then wallets[n].balance else 0
  }

  // Signed sum of the transactions of one wallet.
  function TxSum(txs: seq<WalletTx>, w: nat): int {
    if txs == [] then 0
    else
      var n := |txs| - 1;
      TxSum(txs[..n], w) + if txs[n].wallet == w then txs[n].amount else 0
  }

  // Each wallet's cached balance is the sum of its transactions and never negative, each
  // transaction's snapshot is the running sum, and per currency the wallets add up to the WALLET
  // account of the ledger.
  ghost predicate WalletInv(s: State) {
    && (forall w :: 0 <= w < |s.wallets| ==>
          0 <= s.wallets[w].balance && s.wallets[w].balance == TxSum(s.walletTxs, w))
    && (forall w :: |s.wallets| <= w ==> TxSum(s.walletTxs, w) == 0)
    && (forall k :: 0 <= k < |s.walletTxs| ==>
          s.walletTxs[k].balanceAfter == TxSum(s.walletTxs[..k + 1], s.walletTxs[k].wallet))
    && (forall c: Currency :: WalletSum(s.wallets, c) == Total(BalanceOf(WALLET, c), s.entries))
  }

  predicate NoWalletLegs(p: Posting) {
    p.debit.account != WALLET && p.credit.account != WALLET
  }

  // Postings that stay off the WALLET account keep the invariant.
  lemma WalletFrame(s: State, s': State, ps: seq<Posting>)
    requires WalletInv(s) && s'.wallets == s.wallets && s'.walletTxs == s.walletTxs
    requires s'.entries == PostAll(s.entries, ps) && forall p :: p in ps ==> NoWalletLegs(p)
    ensures WalletInv(s')
  {
    forall c: Currency
      ensures WalletSum(s'.wallets, c) == Total(BalanceOf(WALLET, c), s'.entries)
    {
      Untouched(BalanceOf(WALLET, c), s.entries, ps);
    }
  }

  lemma {:induction false} WalletSumUpdate(wallets: seq<Wallet>, w: nat, balance: int, c: Currency)
    requires w < |wallets|
    ensures WalletSum(wallets[w := wallets[w].(balance := balance)], c)
            == WalletSum(wallets, c) + if wallets[w].currency == c then balance - wallets[w].balance else 0
  {
    var n := |wallets| - 1;
    var after := wallets[w := wallets[w].(balance := balance)];
    if w == n {
      assert after[..n] == wallets[..n];
    } else {
      assert after[..n] == wallets[..n][w := wallets[w].(balance := balance)];
      WalletSumUpdate(wallets[..n], w, balance, c);
    }
  }

  lemma TxSumAppend(txs: seq<WalletTx>, t: WalletTx, w: nat)
    ensures TxSum(txs + [t], w) == TxSum(txs, w) + if t.wallet == w then t.amount else 0
  {
    assert (txs + [t])[..|txs|] == txs;
  }

  // Recording a movement keeps the invariant when its postings put exactly its signed amount on the
  // WALLET account.
  lemma MovementKeepsWallets(s: State, w: nat, kind: WalletTxKind, m: WalletMath.Movement, ps: seq<Posting>)
    requires WalletInv(s) && w < |s.wallets|
    requires 0 <= m.balanceAfter == s.wallets[w].balance + m.signed
    requires forall c: Currency ::
               Effects(BalanceOf(WALLET, c), ps) == if c == s.wallets[w].currency then m.signed else 0
    ensures WalletInv(Moved(s, w, kind, m, ps))
  {
    var s' := Moved(s, w, kind, m, ps);
    var t := WalletTx(w, kind, m.signed, m.balanceAfter);
    forall v: nat
      ensures TxSum(s'.walletTxs, v) == TxSum(s.walletTxs, v) + if v == w then m.signed else 0
    {
      TxSumAppend(s.walletTxs, t, v);
    }
    forall k | 0 <= k < |s'.walletTxs|
      ensures s'.walletTxs[k].balanceAfter == TxSum(s'.walletTxs[..k + 1], s'.walletTxs[k].wallet)
    {
      if k < |s.walletTxs| {
        assert s'.walletTxs[..k + 1] == s.walletTxs[..k + 1];
      } else {
        assert s'.walletTxs[..k + 1] == s'.walletTxs;
      }
    }
    forall c: Currency
      ensures WalletSum(s'.wallets, c) == Total(BalanceOf(WALLET, c), s'.entries)
    {
      WalletSumUpdate(s.wallets, w, m.balanceAfter, c);
      PostAllEffect(BalanceOf(WALLET, c), s.entries, ps);
    }
  }

  lemma OneOrTwoEffects(q: Query, p1: Posting, p2: Posting, both: bool)
    ensures Effects(q, [p1] + if both then [p2] else []) == Effect(q, p1) + if both then Effect(q, p2) else 0
  {
    EffectsOfOne(q, p1);
    if both { EffectsOfTwo(q, p1, p2); assert [p1] + [p2] == [p1, p2]; } else { assert [p1] + [] == [p1]; }
  }

  lemma TopUpKeepsWallets(s: State, w: nat, amount: int, basis: WalletMath.CommissionBasis, schedule: FeeSchedule)
    requires WalletInv(s)
    ensures WalletInv(After(s, TopUpWallet(s, w, amount, basis, schedule)))
  {
    if TopUpWallet(s, w, amount, basis, schedule).Commit? {
      var wal := s.wallets[w];
      var m := TopUpMovement(wal.balance, amount, basis, schedule).value;
      forall c: Currency
        ensures Effects(BalanceOf(WALLET, c), TopUpPostings(w, wal.currency, m))
                == if c == wal.currency then m.signed else 0
      {
        OneOrTwoEffects(BalanceOf(WALLET, c), Move(CASH, WALLET, m.gross, CAPTURE, wal.currency, FromWallet(w)),
                        Move(WALLET, FEES, m.fee, FEE, wal.currency, FromWallet(w)), m.fee > 0);
      }
      MovementKeepsWallets(s, w, TopUpTx, m, TopUpPostings(w, wal.currency, m));
    }
  }

  lemma DebitKeepsWallets(s: State, w: nat, amount: int, basis: WalletMath.CommissionBasis, schedule: FeeSchedule,
                          meth: Option<Method>)
    requires WalletInv(s)
    ensures WalletInv(After(s, DebitWallet(s, w, amount, basis, schedule, meth)))
  {
    if DebitWallet(s, w, amount, basis, schedule, meth).Commit? {
      var wal := s.wallets[w];
      var m := DebitMovement(wal.balance, amount, basis, schedule, meth).value;
      forall c: Currency
        ensures Effects(BalanceOf(WALLET, c), DebitPostings(w, wal.currency, m))
                == if c == wal.currency then m.signed else 0
      {
        OneOrTwoEffects(BalanceOf(WALLET, c), Move(WALLET, AVAILABLE, m.gross, CAPTURE, wal.currency, FromWallet(w)),
                        Move(AVAILABLE, FEES, m.fee, FEE, wal.currency, FromWallet(w)), m.fee > 0);
      }
      MovementKeepsWallets(s, w, DebitTx, m, DebitPostings(w, wal.currency, m));
    }
  }

  lemma RefundKeepsWallets(s: State, w: nat, amount: int)
    requires WalletInv(s)
    ensures WalletInv(After(s, RefundWallet(s, w, amount)))
  {
    if RefundWallet(s, w, amount).Commit? {
      var wal := s.wallets[w];
      var m := WalletMath.Refund(wal.balance, amount).value;
      var p := Move(AVAILABLE, WALLET, amount, REFUND, wal.currency, FromWallet(w));
      forall c: Currency
        ensures Effects(BalanceOf(WALLET, c), [p]) == if c == wal.currency then m.signed else 0
      {
        EffectsOfOne(BalanceOf(WALLET, c), p);
      }
      MovementKeepsWallets(s, w, RefundTx, m, [p]);
    }
  }

  lemma AdjustKeepsWallets(s: State, w: nat, signed: int)
    requires WalletInv(s)
    ensures WalletInv(After(s, AdjustWallet(s, w, signed)))
  {
    if AdjustWallet(s, w, signed).Commit? {
      var wal := s.wallets[w];
      var m := WalletMath.Adjustment(wal.balance, signed).value;
      var ps := AdjustPostings(w, wal.currency, m);
      forall c: Currency
        ensures Effects(BalanceOf(WALLET, c), ps) == if c == wal.currency then m.signed else 0
      {
        if ps != [] { EffectsOfOne(BalanceOf(WALLET, c), ps[0]); }
      }
      MovementKeepsWallets(s, w, AdjustmentTx, m, ps);
    }
  }

  lemma CreateKeepsWallets(s: State, owner: nat, c: Currency)
    requires WalletInv(s)
    ensures WalletInv(After(s, CreateWallet(s, owner, c)))
  {
    if WalletByOwner(s.wallets, owner).None? { EmptyWalletKeepsWallets(s, Wallet(owner, c, 0, Active)); }
  }

  lemma EmptyWalletKeepsWallets(s: State, w: Wallet)
    requires WalletInv(s) && w.balance == 0
    ensures WalletInv(s.(wallets := s.wallets + [w]))
  {
    var wallets := s.wallets + [w];
    assert wallets[..|s.wallets|] == s.wallets;
    forall v | 0 <= v < |wallets|
      ensures 0 <= wallets[v].balance == TxSum(s.walletTxs, v)
    {
      if v < |s.wallets| { assert wallets[v] == s.wallets[v]; }
    }
    forall x: Currency
      ensures WalletSum(wallets, x) == WalletSum(s.wallets, x)
    {
    }
  }

  // Every wallet operation's postings are valid and stay clear of payouts, parties and chargebacks.
  predicate WalletPosting(p: Posting) {
    && ValidPosting(p)
    && p.debit.party == None && p.credit.party == None
    && p.debit.category == p.credit.category
    && p.debit.category in {CAPTURE, FEE, REFUND, ADJUSTMENT}
    && p.debit.account != PAID_OUT && p.credit.account != PAID_OUT
  }

  lemma MovementPostingsAreWalletPostings(w: nat, c: Currency, m: WalletMath.Movement)
    requires 0 <= m.gross
    ensures forall p :: p in TopUpPostings(w, c, m) ==> WalletPosting(p)
    ensures forall p :: p in DebitPostings(w, c, m) ==> WalletPosting(p)
    ensures forall p :: p in AdjustPostings(w, c, m) ==> WalletPosting(p)
  {
  }
}
