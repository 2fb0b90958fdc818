// The tenant's database as an object: each transaction run the way the source runs it, one ledger
// entry, row update and balance read at a time, and proved to do exactly what `Books` says it does.
module TenantBooks {
  import opened Prelude
  import opened Money
  import opened Ledger
  import opened Fees
  import opened FxSettlement
  import opened Reversals
  import opened Books
  import opened PayoutLedger
  import opened Transactions
  import Shares
  import SplitLedger
  import WalletMath

  // What a caller sees of a transaction: its new state and value, or its error and the old state.
  predicate Outcome<T(==)>(before: State, tx: Tx<T>, after: State, r: Result<T, Error>) {
    match tx
    case Commit(s, v) => after == s && r == Ok(v)
    case Abort(e) => after == before && r == Err(e)
  }

  // Whether an entry is allocated, and how much of it, depends on the entries up to it alone.
  lemma AllocatedAt(es: seq<Entry>, items: map<nat, Item>, c: Currency, payable: int, id: nat, n: nat, k: nat)
    requires k < n <= |es|
    ensures k in Allocate(es[..n], items, c, payable, id)
            <==> Unpaid(es, items, c, k) && UnpaidCredits(es[..k], items, c) < payable
    ensures k in Allocate(es[..n], items, c, payable, id) ==>
              Allocate(es[..n], items, c, payable, id)[k]
              == Item(id, Min(es[k].leg.amount, payable - UnpaidCredits(es[..k], items, c)))
  {
    assert es[..n][..k] == es[..k] && es[..n][k] == es[k];
    assert Unpaid(es[..n], items, c, k) == Unpaid(es, items, c, k);
  }

  lemma AllocatedAlike(es: seq<Entry>, items: map<nat, Item>, c: Currency, payable: int, id: nat, i: nat, k: nat)
    requires k < i < |es|
    ensures var before, after := Allocate(es[..i], items, c, payable, id), Allocate(es[..i + 1], items, c, payable, id);
            (k in after <==> k in before) && (k in after ==> after[k] == before[k])
  {
    AllocatedAt(es, items, c, payable, id, i, k);
    AllocatedAt(es, items, c, payable, id, i + 1, k);
  }

  lemma AllocatedBelow(es: seq<Entry>, items: map<nat, Item>, c: Currency, payable: int, id: nat, n: nat)
    requires n <= |es|
    ensures forall k :: k in Allocate(es[..n], items, c, payable, id) ==> k < n
  {
  }

  // Two maps that differ at most by a last key.
  lemma LastKey(before: map<nat, Item>, after: map<nat, Item>, i: nat, hit: bool, item: Item)
    requires (forall k :: k in before ==> k < i) && (forall k :: k in after ==> k < i + 1)
    requires forall k :: k < i ==> (k in after <==> k in before)
    requires forall k :: k in before && k in after ==> after[k] == before[k]
    requires (i in after <==> hit) && (hit ==> after[i] == item)
    ensures after == if hit then before[i := item] else before
  {
    if hit {
      assert forall k :: k in after <==> k in before[i := item];
    } else {
      assert forall k :: k in after <==> k in before;
    }
  }

  // One more entry of the table adds at most that entry to the allocation.
  lemma AllocateStep(es: seq<Entry>, items: map<nat, Item>, c: Currency, payable: int, id: nat, i: nat)
    requires i < |es|
    ensures var unpaid := UnpaidCredits(es[..i], items, c);
            Allocate(es[..i + 1], items, c, payable, id)
            == if Unpaid(es, items, c, i) && unpaid < payable
               then Allocate(es[..i], items, c, payable, id)[i := Item(id, Min(es[i].leg.amount, payable - unpaid))]
               else Allocate(es[..i], items, c, payable, id)
  {
    AllocatedBelow(es, items, c, payable, id, i);
    AllocatedBelow(es, items, c, payable, id, i + 1);
    AllocatedAt(es, items, c, payable, id, i + 1, i);
    forall k: nat | k < i
      ensures k in Allocate(es[..i + 1], items, c, payable, id) <==> k in Allocate(es[..i], items, c, payable, id)
      ensures k in Allocate(es[..i + 1], items, c, payable, id) ==>
                Allocate(es[..i + 1], items, c, payable, id)[k] == Allocate(es[..i], items, c, payable, id)[k]
    {
      AllocatedAlike(es, items, c, payable, id, i, k);
    }
    var unpaid := UnpaidCredits(es[..i], items, c);
    LastKey(Allocate(es[..i], items, c, payable, id), Allocate(es[..i + 1], items, c, payable, id), i,
            Unpaid(es, items, c, i) && unpaid < payable, Item(id, Min(es[i].leg.amount, payable - unpaid)));
  }

  // Once the unpaid credits so far cover the payable amount, the rest of the table adds nothing.
  lemma {:induction false} AllocateDone(es: seq<Entry>, items: map<nat, Item>, c: Currency, payable: int, id: nat,
                                        i: nat)
    requires i <= |es| && forall k :: 0 <= k < |es| ==> 0 <= es[k].leg.amount
    requires i < |es| ==> payable <= UnpaidCredits(es[..i], items, c)
    ensures Allocate(es, items, c, payable, id) == Allocate(es[..i], items, c, payable, id)
    ensures Min(payable, UnpaidCredits(es, items, c)) == Min(payable, UnpaidCredits(es[..i], items, c))
    decreases |es| - i
  {
    assert es[..|es|] == es;
    if i < |es| {
      AllocateStep(es, items, c, payable, id, i);
      UnpaidStep(es, items, c, i + 1);
      AllocateDone(es, items, c, payable, id, i + 1);
    }
  }

  // One turn of the FIFO loop, in terms of what is still to cover.
  lemma FifoStep(es: seq<Entry>, items: map<nat, Item>, c: Currency, payable: int, id: nat, i: nat)
    requires i < |es| && forall k :: 0 <= k < |es| ==> 0 <= es[k].leg.amount
    requires UnpaidCredits(es[..i], items, c) < payable
    ensures var remaining := payable - UnpaidCredits(es[..i], items, c);
            && Allocate(es[..i + 1], items, c, payable, id)
               == (if Unpaid(es, items, c, i)
                   then Allocate(es[..i], items, c, payable, id)[i := Item(id, Min(es[i].leg.amount, remaining))]
                   else Allocate(es[..i], items, c, payable, id))
            && payable - Min(payable, UnpaidCredits(es[..i + 1], items, c))
               == if Unpaid(es, items, c, i) then remaining - Min(es[i].leg.amount, remaining) else remaining
  {
    AllocateStep(es, items, c, payable, id, i);
    UnpaidStep(es, items, c, i + 1);
  }

  // The FIFO loop of a payout snapshot. `remaining` is what the unpaid credits could not cover.
  method AllocateFifo(es: seq<Entry>, items: map<nat, Item>, c: Currency, payable: int, id: nat)
    returns (reserved: map<nat, Item>, remaining: int)
    requires 0 < payable && forall i :: 0 <= i < |es| ==> 0 <= es[i].leg.amount
    ensures reserved == Allocate(es, items, c, payable, id)
    ensures remaining == payable - Min(payable, UnpaidCredits(es, items, c))
  {
    reserved, remaining := map[], payable;
    var i := 0;
    while i < |es| && remaining > 0
      invariant 0 <= i <= |es|
      invariant remaining == payable - Min(payable, UnpaidCredits(es[..i], items, c))
      invariant reserved == Allocate(es[..i], items, c, payable, id)
    {
      FifoStep(es, items, c, payable, id, i);
      if Unpaid(es, items, c, i) {
        var alloc := Min(es[i].leg.amount, remaining);
        reserved := reserved[i := Item(id, alloc)];
        remaining := remaining - alloc;
      }
      i := i + 1;
    }
    AllocateDone(es, items, c, payable, id, i);
  }

  class TenantBooks {
    var entries: seq<Entry>
    var payouts: seq<Payout>
    var items: map<nat, Item>
    var wallets: seq<Wallet>
    var walletTxs: seq<WalletTx>
    var splits: seq<SplitRow>
    var disputes: seq<Dispute>
    var recoveries: seq<Recovery>

    function Rows(): State
      reads this
    {
      State(entries, payouts, items, wallets, walletTxs, splits, disputes, recoveries)
    }

    ghost predicate Valid()
      reads this
    {
      Inv(Rows())
    }

    constructor ()
      ensures Valid() && Rows() == EMPTY
    {
      entries, payouts, items, wallets, walletTxs, splits, disputes, recoveries := [], [], map[], [], [], [], [], [];
      new;
      EmptyInv();
    }

    // ---- Ledger ----

    // The two direction groups of an account are summed apart and then netted.
    method AccountBalance(account: Account, c: Currency) returns (balance: int)
      ensures balance == Total(BalanceOf(account, c), entries)
    {
      var credits, debits := 0, 0;
      for i := 0 to |entries|
        invariant credits == Total(CreditsTo(account, c), entries[..i])
        invariant debits == Total(DebitsOf(account, c), entries[..i])
      {
        assert entries[..i + 1][..i] == entries[..i];
        var leg := entries[i].leg;
        if leg.account == account && leg.currency == c {
          if leg.direction == CREDIT { credits := credits + leg.amount; } else { debits := debits + leg.amount; }
        }
      }
      assert entries[..|entries|] == entries;
      BalanceDecomposes(entries, account, c);
      balance := credits - debits;
    }

    // Re-validates the posting, reads both balances, then writes the two rows.
    method PostEntry(p: Posting) returns (r: Result<(Entry, Entry), Error>)
      modifies this`entries
      ensures r.Ok? <==> ValidPosting(p)
      ensures r.Ok? ==>
                && entries == Post(old(entries), p)
                && entries == old(entries) + [r.value.0, r.value.1]
      ensures r.Err? ==> entries == old(entries)
    {
      var checked := MakePosting(p.debit, p.credit, p.source);
      if checked.Err? { return Err(checked.error); }
      var debitBefore := AccountBalance(p.debit.account, p.debit.currency);
      var creditBefore := AccountBalance(p.credit.account, p.debit.currency);
      var debitRow := Entry(p.debit, debitBefore + Delta(p.debit), p.source);
      var creditRow := Entry(p.credit, creditBefore + Delta(p.credit), p.source);
      entries := entries + [debitRow];
      entries := entries + [creditRow];
      r := Ok((debitRow, creditRow));
    }

    // ---- Foreign balances ----

    // One currency's turn in the sweep: nothing unless it is foreign and holds something.
    method ConvertOne(from: Currency, to: Currency, rates: Rates) returns (converted: Option<Converted>)
      modifies this`entries
      ensures var balance := Total(BalanceOf(AVAILABLE, from), old(entries));
              && entries == PostAll(old(entries), ConversionOf(from, to, balance, rates))
              && converted == ConvertedOf(from, to, balance, rates)
    {
      converted := None;
      if from != to {
        var balance := AccountBalance(AVAILABLE, from);
        if balance > 0 {
          ConversionNonNegative(balance, RateOf(rates, from));
          var plan := PlanFxConversion(from, to, balance, RateOf(rates, from), RateOf(rates, from)).value;
          PostEach(plan.postings);
          converted := Some(Converted(from, balance, plan.amountTo));
        }
      }
    }

    // Sweeps currency by currency, reading each balance when its turn comes; the result is the sweep
    // planned on the balances before it started.
    method ConvertForeignBalances(to: Currency, rates: Rates) returns (converted: seq<Converted>)
      modifies this`entries
      ensures entries == Sweep(old(entries), to, rates)
      ensures converted == ConvertedBy(old(entries), to, rates, |SUPPORTED_CURRENCIES|)
    {
      ghost var es := entries;
      converted := [];
      for n := 0 to |SUPPORTED_CURRENCIES|
        invariant entries == PostAll(es, SweepPlan(es, to, rates, n))
        invariant converted == ConvertedBy(es, to, rates, n)
      {
        SweepStep(es, to, rates, n);
        var one := ConvertOne(SUPPORTED_CURRENCIES[n], to, rates);
        if one.Some? { converted := converted + [one.value]; }
      }
    }

    method PostEach(ps: seq<Posting>)
      requires forall p :: p in ps ==> ValidPosting(p)
      modifies this`entries
      ensures entries == PostAll(old(entries), ps)
    {
      ghost var es := entries;
      for k := 0 to |ps|
        invariant entries == PostAll(es, ps[..k])
      {
        var _ := PostEntry(ps[k]);
        assert ps[..k + 1] == ps[..k] + [ps[k]];
        PostAllSnoc(es, ps[..k], ps[k]);
      }
      assert ps[..|ps|] == ps;
    }

    // ---- Payouts ----

    // Foreign balances in first, then unpaid credits less every non-payout debit.
    method SweepAndPrice(c: Currency, rates: Rates) returns (payable: int)
      modifies this`entries
      ensures Rows() == Swept(old(Rows()), c, rates) && payable == Payable(Rows(), c)
    {
      var _ := ConvertForeignBalances(c, rates);
      var unpaidCredits := UnpaidCredits(entries, items, c);
      var otherDebits := Total(OtherDebitsOf(c), entries);
      payable := unpaidCredits - otherDebits;
    }

    // Runs the FIFO loop, which always finds the whole amount, and writes the payout with its items.
    method DraftPayout(key: nat, c: Currency, payable: int)
      requires LedgerInv(entries) && 0 < payable == Payable(Rows(), c)
      modifies this`payouts, this`items
      ensures Rows() == Snapshot(old(Rows()), key, c, payable)
    {
      PayableAtMostUnpaid(Rows(), c);
      var reserved, remaining := AllocateFifo(entries, items, c, payable, |payouts|);
      assert remaining == 0;
      items := items + reserved;
      payouts := payouts + [Payout(key, payable, c, Draft)];
    }

    method CreatePayout(key: nat, c: Currency, rates: Rates) returns (r: Result<nat, Error>)
      requires Valid()
      modifies this
      ensures Valid() && Outcome(old(Rows()), Books.CreatePayout(old(Rows()), key, c, rates), Rows(), r)
    {
      CreatePayoutKeepsInv(Rows(), key, c, rates);
      SweepKeepsPayouts(Rows(), c, rates);
      var existing := PayoutByKey(payouts, key);
      if existing.Some? { return Ok(existing.value); }
      var saved := entries;
      var payable := SweepAndPrice(c, rates);
      if payable <= 0 {
        entries := saved;
        return Err(NoEligibleFunds);
      }
      r := Ok(|payouts|);
      DraftPayout(key, c, payable);
    }

    method CancelPayout(id: nat) returns (r: Result<(), Error>)
      requires Valid()
      modifies this
      ensures Valid() && Outcome(old(Rows()), Books.CancelPayout(old(Rows()), id), Rows(), r)
    {
      CancelKeepsInv(Rows(), id);
      if id >= |payouts| { return Err(PayoutNotFound); }
      if !CanMove(payouts[id].status, Cancelled) { return Err(IllegalTransition); }
      items := Release(items, id);
      payouts := payouts[id := payouts[id].(status := Cancelled)];
      r := Ok(());
    }

    method MarkPayoutFailed(id: nat) returns (r: Result<(), Error>)
      requires Valid()
      modifies this
      ensures Valid() && Outcome(old(Rows()), Books.MarkPayoutFailed(old(Rows()), id), Rows(), r)
    {
      FailKeepsInv(Rows(), id);
      if id >= |payouts| { return Err(PayoutNotFound); }
      if payouts[id].status in {Paid, Failed, Cancelled} { return Err(IllegalTransition); }
      items := Release(items, id);
      payouts := payouts[id := payouts[id].(status := Failed)];
      r := Ok(());
    }

    method MarkPayoutPaid(id: nat) returns (r: Result<(), Error>)
      requires Valid()
      modifies this
      ensures Valid() && Outcome(old(Rows()), Books.MarkPayoutPaid(old(Rows()), id), Rows(), r)
    {
      PaidKeepsInv(Rows(), id);
      if id >= |payouts| { return Err(PayoutNotFound); }
      var payout := payouts[id];
      if payout.status in {Paid, Failed, Cancelled} { return Err(IllegalTransition); }
      var available := AccountBalance(AVAILABLE, payout.currency);
      if available < payout.amount { return Err(PayoutExceedsFunds); }
      PayOut(id);
      r := Ok(());
    }

    // The settlement posting and the status, together.
    method PayOut(id: nat)
      requires id < |payouts| && 0 < payouts[id].amount
      modifies this`entries, this`payouts
      ensures Rows() == PaidOut(old(Rows()), id)
    {
      var _ := PostEntry(Settlement(id, payouts[id]));
      payouts := payouts[id := payouts[id].(status := Paid)];
    }

    method AdvancePayout(id: nat, to: PayoutStatus) returns (r: Result<(), Error>)
      requires Valid()
      modifies this
      ensures Valid() && Outcome(old(Rows()), Books.AdvancePayout(old(Rows()), id, to), Rows(), r)
    {
      AdvanceKeepsInv(Rows(), id, to);
      if id >= |payouts| { return Err(PayoutNotFound); }
      if to !in OPEN || !CanMove(payouts[id].status, to) { return Err(IllegalTransition); }
      payouts := payouts[id := payouts[id].(status := to)];
      r := Ok(());
    }

    // ---- Wallets ----

    method CreateWallet(owner: nat, c: Currency) returns (r: Result<nat, Error>)
      requires Valid()
      modifies this
      ensures Valid() && Outcome(old(Rows()), Books.CreateWallet(old(Rows()), owner, c), Rows(), r)
    {
      CreateWalletKeepsInv(Rows(), owner, c);
      var existing := WalletByOwner(wallets, owner);
      if existing.Some? { return Ok(existing.value); }
      wallets := wallets + [Wallet(owner, c, 0, Active)];
      r := Ok(|wallets| - 1);
    }

    method LoadActiveWallet(w: nat) returns (r: Result<Wallet, Error>)
      ensures r == if Loadable(Rows(), w) then Ok(wallets[w]) else Err(LoadError(Rows(), w))
    {
      if w >= |wallets| { return Err(WalletNotFound); }
      if wallets[w].status != Active { return Err(WalletNotActive); }
      r := Ok(wallets[w]);
    }

    method RecordMovement(w: nat, kind: WalletTxKind, m: WalletMath.Movement)
      requires w < |wallets|
      modifies this`wallets, this`walletTxs
      ensures wallets == old(wallets)[w := old(wallets)[w].(balance := m.balanceAfter)]
      ensures walletTxs == old(walletTxs) + [WalletTx(w, kind, m.signed, m.balanceAfter)]
    {
      walletTxs := walletTxs + [WalletTx(w, kind, m.signed, m.balanceAfter)];
      wallets := wallets[w := wallets[w].(balance := m.balanceAfter)];
    }

    // Posts a movement's legs one by one, then writes the transaction and the cached balance.
    method Perform(w: nat, kind: WalletTxKind, m: WalletMath.Movement, ps: seq<Posting>)
      requires w < |wallets| && forall p :: p in ps ==> ValidPosting(p)
      modifies this`entries, this`wallets, this`walletTxs
      ensures Rows() == Moved(old(Rows()), w, kind, m, ps)
    {
      PostEach(ps);
      RecordMovement(w, kind, m);
    }

    method TopUpWallet(w: nat, amount: int, basis: WalletMath.CommissionBasis, schedule: FeeSchedule)
      returns (r: Result<(), Error>)
      requires Valid()
      modifies this
      ensures Valid() && Outcome(old(Rows()), Books.TopUpWallet(old(Rows()), w, amount, basis, schedule), Rows(), r)
    {
      TopUpKeepsInv(Rows(), w, amount, basis, schedule);
      var loaded := LoadActiveWallet(w);
      if loaded.Err? { return Err(loaded.error); }
      var wallet := loaded.value;
      var movement := TopUpMovement(wallet.balance, amount, basis, schedule);
      if movement.Err? { return Err(movement.error); }
      var m := movement.value;
      var ps := [Move(CASH, WALLET, m.gross, CAPTURE, wallet.currency, FromWallet(w))];
      if m.fee > 0 { ps := ps + [Move(WALLET, FEES, m.fee, FEE, wallet.currency, FromWallet(w))]; }
      Perform(w, TopUpTx, m, ps);
      r := Ok(());
    }

    method DebitWallet(w: nat, amount: int, basis: WalletMath.CommissionBasis, schedule: FeeSchedule,
                       meth: Option<Method>)
      returns (r: Result<(), Error>)
      requires Valid()
      modifies this
      ensures Valid()
              && Outcome(old(Rows()), Books.DebitWallet(old(Rows()), w, amount, basis, schedule, meth), Rows(), r)
    {
      DebitKeepsInv(Rows(), w, amount, basis, schedule, meth);
      var loaded := LoadActiveWallet(w);
      if loaded.Err? { return Err(loaded.error); }
      var wallet := loaded.value;
      var movement := DebitMovement(wallet.balance, amount, basis, schedule, meth);
      if movement.Err? { return Err(movement.error); }
      var m := movement.value;
      var ps := [Move(WALLET, AVAILABLE, m.gross, CAPTURE, wallet.currency, FromWallet(w))];
      if m.fee > 0 { ps := ps + [Move(AVAILABLE, FEES, m.fee, FEE, wallet.currency, FromWallet(w))]; }
      Perform(w, DebitTx, m, ps);
      r := Ok(());
    }

    method RefundWallet(w: nat, amount: int) returns (r: Result<(), Error>)
      requires Valid()
      modifies this
      ensures Valid() && Outcome(old(Rows()), Books.RefundWallet(old(Rows()), w, amount), Rows(), r)
    {
      RefundWalletKeepsInv(Rows(), w, amount);
      var loaded := LoadActiveWallet(w);
      if loaded.Err? { return Err(loaded.error); }
      var movement := WalletMath.Refund(loaded.value.balance, amount);
      if movement.Err? { return Err(movement.error); }
      Perform(w, RefundTx, movement.value,
              [Move(AVAILABLE, WALLET, amount, REFUND, loaded.value.currency, FromWallet(w))]);
      r := Ok(());
    }

    method AdjustWallet(w: nat, signed: int) returns (r: Result<(), Error>)
      requires Valid()
      modifies this
      ensures Valid() && Outcome(old(Rows()), Books.AdjustWallet(old(Rows()), w, signed), Rows(), r)
    {
      AdjustKeepsInv(Rows(), w, signed);
      var loaded := LoadActiveWallet(w);
      if loaded.Err? { return Err(loaded.error); }
      var movement := WalletMath.Adjustment(loaded.value.balance, signed);
      if movement.Err? { return Err(movement.error); }
      var m, c := movement.value, loaded.value.currency;
      var ps := [];
      if signed > 0 {
        ps := [Move(AVAILABLE, WALLET, m.gross, ADJUSTMENT, c, FromWallet(w))];
      } else if signed < 0 {
        ps := [Move(WALLET, AVAILABLE, m.gross, ADJUSTMENT, c, FromWallet(w))];
      }
      Perform(w, AdjustmentTx, m, ps);
      r := Ok(());
    }

    // ---- Splits ----

    static lemma ShareStep(es: seq<Entry>, o: SplitOrder, shares: seq<Shares.ShareSpec>, amounts: seq<int>,
                           status: SplitStatus, k: nat)
      requires k < |shares| == |amounts|
      ensures PostAll(es, ShareMoves(o, shares[..k + 1], amounts[..k + 1]))
              == Post(PostAll(es, ShareMoves(o, shares[..k], amounts[..k])), ShareMove(o, shares[k].party, amounts[k]))
      ensures ShareRows(o.currency, status, shares[..k + 1], amounts[..k + 1])
              == ShareRows(o.currency, status, shares[..k], amounts[..k])
                 + [SplitRow(shares[k].party, amounts[k], o.currency, status)]
    {
      assert shares[..k + 1][..k] == shares[..k] && amounts[..k + 1][..k] == amounts[..k];
      PostAllSnoc(es, ShareMoves(o, shares[..k], amounts[..k]), ShareMove(o, shares[k].party, amounts[k]));
    }

    // One beneficiary's posting and row.
    method PostShare(o: SplitOrder, party: PartyId, amount: int, status: SplitStatus)
      requires 0 <= amount
      modifies this`entries, this`splits
      ensures entries == Post(old(entries), ShareMove(o, party, amount))
      ensures splits == old(splits) + [SplitRow(party, amount, o.currency, status)]
    {
      var _ := PostEntry(ShareMove(o, party, amount));
      splits := splits + [SplitRow(party, amount, o.currency, status)];
    }

    method PostShares(o: SplitOrder, shares: seq<Shares.ShareSpec>, amounts: seq<int>, status: SplitStatus)
      requires |amounts| == |shares| && forall i :: 0 <= i < |amounts| ==> 0 <= amounts[i]
      modifies this`entries, this`splits
      ensures entries == PostAll(old(entries), ShareMoves(o, shares, amounts))
      ensures splits == old(splits) + ShareRows(o.currency, status, shares, amounts)
    {
      ghost var es, rows := entries, splits;
      for k := 0 to |shares|
        invariant entries == PostAll(es, ShareMoves(o, shares[..k], amounts[..k]))
        invariant splits == rows + ShareRows(o.currency, status, shares[..k], amounts[..k])
      {
        ShareStep(es, o, shares, amounts, status, k);
        PostShare(o, shares[k].party, amounts[k], status);
      }
      assert shares[..|shares|] == shares && amounts[..|shares|] == amounts;
    }

    // The shares, then the platform's remainder when it has to leave COLLECTED.
    method ExecuteSplitInTx(o: SplitOrder, trigger: Trigger, shares: seq<Shares.ShareSpec>, split: Shares.SplitResult,
                            held: bool)
      requires |split.shares| == |shares| && forall i :: 0 <= i < |split.shares| ==> 0 <= split.shares[i]
      requires trigger == AtCapture ==> o.from == COLLECTED
      modifies this`entries, this`splits
      ensures entries == PostAll(old(entries), SplitPostings(o, trigger, shares, split))
      ensures splits == old(splits) + ShareRows(o.currency, if held then Held else Settled, shares, split.shares)
    {
      PostAllConcat(entries, ShareMoves(o, shares, split.shares), PlatformMove(o, trigger, split.platform));
      PostShares(o, shares, split.shares, if held then Held else Settled);
      PostPlatform(o, trigger, split.platform);
    }

    method PostPlatform(o: SplitOrder, trigger: Trigger, platform: int)
      requires trigger == AtCapture ==> o.from == COLLECTED
      modifies this`entries
      ensures entries == PostAll(old(entries), PlatformMove(o, trigger, platform))
    {
      if trigger == AtCapture && platform > 0 {
        var p := Move(o.from, AVAILABLE, platform, SPLIT, o.currency, o.source);
        PostAllSnoc(entries, [], p);
        assert [] + [p] == [p];
        var _ := PostEntry(p);
      }
    }

    method ExecuteSplit(source: Source, cents: int, c: Currency, trigger: Trigger, shares: seq<Shares.ShareSpec>,
                        held: bool)
      returns (r: Result<(), Error>)
      requires Valid()
      modifies this
      ensures Valid() && Outcome(old(Rows()), Books.ExecuteSplit(old(Rows()), source, cents, c, trigger, shares, held),
                                 Rows(), r)
    {
      ExecuteSplitKeepsInv(Rows(), source, cents, c, trigger, shares, held);
      var split := Shares.Split(cents, shares);
      if split.Err? { return Err(split.error); }
      SplitLedger.SplitAmountsNonNegative(cents, shares);
      ExecuteSplitInTx(OrderFor(source, c, trigger, held), trigger, shares, split.value, held);
      r := Ok(());
    }

    method ReleaseSplit(id: nat) returns (r: Result<(), Error>)
      requires Valid()
      modifies this
      ensures Valid() && Outcome(old(Rows()), Books.ReleaseSplit(old(Rows()), id), Rows(), r)
    {
      ReleaseKeepsInv(Rows(), id);
      if id >= |splits| { return Err(SplitNotFound); }
      if splits[id].status != Held { return Err(IllegalTransition); }
      var _ := PostEntry(ReleaseMove(id, splits[id]));
      splits := splits[id := splits[id].(status := Settled)];
      r := Ok(());
    }

    // ---- Captures and refunds ----

    // Posts a charge only when there is something to charge.
    method PostCharge(x: Capture, to: Account, amount: int, category: Category)
      requires to !in {COLLECTED} && (x.rule.Some? ==> to != AVAILABLE)
      modifies this`entries
      ensures entries == PostAll(old(entries), Charge(x, to, amount, category))
    {
      if amount > 0 {
        var p := Move(if x.rule.Some? then AVAILABLE else COLLECTED, to, amount, category, x.currency,
                      FromIntent(x.intent));
        OnePosting(entries, p);
        var _ := PostEntry(p);
      }
    }

    // The split of a capture, when the tenant has an active rule.
    method PostCaptureSplit(x: Capture)
      requires x.rule.Some? ==> Shares.Split(x.amount, x.rule.value).Ok?
      modifies this`entries, this`splits
      ensures entries == PostAll(old(entries), CaptureSplit(x))
      ensures splits == old(splits) + CaptureRows(x)
    {
      if x.rule.Some? {
        var shares := x.rule.value;
        SplitLedger.SplitAmountsNonNegative(x.amount, shares);
        ExecuteSplitInTx(OrderFor(FromIntent(x.intent), x.currency, AtCapture, false), AtCapture, shares,
                         Shares.Split(x.amount, shares).value, false);
      }
    }

    method SettleCapture(x: Capture) returns (r: Result<bool, Error>)
      requires Valid()
      modifies this
      ensures Valid() && Outcome(old(Rows()), Books.SettleCapture(old(Rows()), x), Rows(), r)
    {
      CaptureKeepsInv(Rows(), x);
      if x.amount <= 0 { return Ok(false); }
      if AlreadySettled(entries, x.intent) { return Ok(false); }
      var planned := PlanFor(x);
      if planned.Err? { return Err(planned.error); }
      PostCapture(x, planned.value);
      r := Ok(true);
    }

    // Gross, split, charges: in this order.
    method PostCapture(x: Capture, plan: CapturePlan)
      requires x.amount > 0 && PlanFor(x) == Ok(plan)
      modifies this`entries, this`splits
      ensures entries == PostAll(old(entries), CapturePostings(x, plan))
      ensures splits == old(splits) + CaptureRows(x)
    {
      ghost var es, gross := entries, [GrossMove(x)];
      OnePosting(es, GrossMove(x));
      PostAllConcat(es, gross, CaptureSplit(x));
      PostAllConcat(es, gross + CaptureSplit(x), Charges(x, plan));
      var _ := PostEntry(GrossMove(x));
      PostCaptureSplit(x);
      PostCharges(x, plan);
    }

    // Fee, tax and reserve, then the net unless a split has already moved it.
    method PostCharges(x: Capture, plan: CapturePlan)
      modifies this`entries
      ensures entries == PostAll(old(entries), Charges(x, plan))
    {
      ghost var es := entries;
      ghost var fee, tax := Charge(x, FEES, plan.fee, FEE), Charge(x, TAX_PAYABLE, plan.tax, TAX);
      ghost var reserve := Charge(x, RESERVE, plan.reserve, CAPTURE);
      ghost var net := if x.rule.None? then Charge(x, AVAILABLE, plan.net, CAPTURE) else [];
      PostCharge(x, FEES, plan.fee, FEE);
      PostCharge(x, TAX_PAYABLE, plan.tax, TAX);
      PostAllConcat(es, fee, tax);
      PostCharge(x, RESERVE, plan.reserve, CAPTURE);
      PostAllConcat(es, fee + tax, reserve);
      if x.rule.None? { PostCharge(x, AVAILABLE, plan.net, CAPTURE); }
      PostAllConcat(es, fee + tax + reserve, net);
    }

    static lemma RefundStep(es: seq<Entry>, credits: seq<Leg>, c: Currency, refund: nat, k: nat)
      requires k < |credits|
      ensures var leg, before := credits[k], PostAll(es, RefundPostings(credits[..k], c, refund));
              PostAll(es, RefundPostings(credits[..k + 1], c, refund))
              == if leg.amount > 0 then Post(before, Move(leg.account, CASH, leg.amount, REFUND, c, FromRefund(refund)))
                 else before
    {
      assert credits[..k + 1][..k] == credits[..k];
      var leg, done := credits[k], RefundPostings(credits[..k], c, refund);
      if leg.amount > 0 {
        PostAllSnoc(es, done, Move(leg.account, CASH, leg.amount, REFUND, c, FromRefund(refund)));
      } else {
        assert done + [] == done;
      }
    }

    // Gives one credit back to CASH, unless it is empty.
    method ReverseCredit(leg: Leg, c: Currency, refund: nat)
      requires leg.account != CASH
      modifies this`entries
      ensures entries == if leg.amount > 0
                         then Post(old(entries), Move(leg.account, CASH, leg.amount, REFUND, c, FromRefund(refund)))
                         else old(entries)
    {
      if leg.amount > 0 {
        var _ := PostEntry(Move(leg.account, CASH, leg.amount, REFUND, c, FromRefund(refund)));
      }
    }

    method ReverseCredits(credits: seq<Leg>, c: Currency, refund: nat)
      requires forall k :: 0 <= k < |credits| ==> credits[k].account != CASH
      modifies this`entries
      ensures entries == PostAll(old(entries), RefundPostings(credits, c, refund))
    {
      ghost var es := entries;
      for k := 0 to |credits|
        invariant entries == PostAll(es, RefundPostings(credits[..k], c, refund))
      {
        RefundStep(es, credits, c, refund, k);
        ReverseCredit(credits[k], c, refund);
      }
      assert credits[..|credits|] == credits;
    }

    method SettleRefund(intent: nat, refund: nat) returns (r: Result<bool, Error>)
      requires Valid()
      modifies this
      ensures Valid() && Outcome(old(Rows()), Books.SettleRefund(old(Rows()), intent, refund), Rows(), r)
    {
      RefundKeepsInv(Rows(), intent, refund);
      CreditsAreRefundable(entries, intent);
      if AlreadyRefunded(entries, refund) { return Ok(false); }
      var credits := SettlementCredits(entries, intent);
      if credits == [] { return Ok(false); }
      var c := credits[0].currency;
      var available := AccountBalance(AVAILABLE, c);
      if FirstNet(credits) > available { return Err(RefundAfterPayout); }
      ReverseCredits(credits, c, refund);
      r := Ok(true);
    }

    // ---- Disputes ----

    method CreateDispute(providerId: nat, amount: int, c: Currency) returns (r: Result<nat, Error>)
      requires Valid()
      modifies this
      ensures Valid() && Outcome(old(Rows()), Books.CreateDispute(old(Rows()), providerId, amount, c), Rows(), r)
    {
      CreateDisputeKeepsInv(Rows(), providerId, amount, c);
      var existing := DisputeByProvider(disputes, providerId);
      if existing.Some? { return Ok(existing.value); }
      disputes := disputes + [Dispute(providerId, amount, c, Open)];
      r := Ok(|disputes| - 1);
    }

    method ResolveWon(id: nat) returns (r: Result<(), Error>)
      requires Valid()
      modifies this
      ensures Valid() && Outcome(old(Rows()), Books.ResolveWon(old(Rows()), id), Rows(), r)
    {
      WonKeepsInv(Rows(), id);
      if id >= |disputes| { return Err(DisputeNotFound); }
      if !CanTransition(disputes[id].status, Won) { return Err(IllegalTransition); }
      disputes := disputes[id := disputes[id].(status := Won)];
      r := Ok(());
    }

    // Takes a funded part of a lost dispute out of one account.
    method ClawBackFrom(id: nat, from: Account, amount: int, c: Currency)
      requires from != CASH
      modifies this`entries
      ensures entries == PostAll(old(entries), Clawback(id, from, amount, c))
    {
      if amount > 0 {
        var p := Move(from, CASH, amount, CHARGEBACK, c, FromDispute(id));
        OnePosting(entries, p);
        var _ := PostEntry(p);
      }
    }

    method ResolveLost(id: nat, policy: FundingPolicy) returns (r: Result<(), Error>)
      requires Valid()
      modifies this
      ensures Valid() && Outcome(old(Rows()), Books.ResolveLost(old(Rows()), id, policy), Rows(), r)
    {
      LostKeepsInv(Rows(), id, policy);
      if id >= |disputes| { return Err(DisputeNotFound); }
      var dispute := disputes[id];
      if !CanTransition(dispute.status, Lost) { return Err(IllegalTransition); }
      var c := dispute.currency;
      var available := AccountBalance(AVAILABLE, c);
      var reserve := AccountBalance(RESERVE, c);
      var funded := FundReversal(policy, dispute.amount, available, reserve);
      if funded.Err? { return Err(funded.error); }
      ClawBack(id, funded.value);
      r := Ok(());
    }

    // Posts the funded parts, flips the dispute, and records what was not funded.
    method ClawBack(id: nat, a: Allocation)
      requires id < |disputes|
      modifies this`entries, this`disputes, this`recoveries
      ensures Rows() == ClawedBack(old(Rows()), id, a)
    {
      var c := disputes[id].currency;
      PostAllConcat(entries, Clawback(id, AVAILABLE, a.fromAvailable, c), Clawback(id, RESERVE, a.fromReserve, c));
      ClawBackFrom(id, AVAILABLE, a.fromAvailable, c);
      ClawBackFrom(id, RESERVE, a.fromReserve, c);
      disputes := disputes[id := disputes[id].(status := Lost)];
      if a.uncovered > 0 { recoveries := recoveries + [Recovery(id, a.uncovered, c)]; }
    }
  }
}
