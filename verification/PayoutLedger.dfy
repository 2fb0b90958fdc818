// Payouts against the ledger: what open payouts have reserved, what paid payouts have moved, and why
// a new snapshot never promises money that is not there.
module PayoutLedger {
  import opened Prelude
  import opened Money
  import opened Ledger
  import opened FxSettlement
  import opened Books

  // Sum of the payouts of a currency with a status among `statuses`.
  function PayoutSum(payouts: seq<Payout>, c: Currency, statuses: set<PayoutStatus>): int {
    if payouts == [] then 0
    else
      var p := payouts[|payouts| - 1];
      PayoutSum(payouts[..|payouts| - 1], c, statuses) + if p.currency == c && p.status in statuses then p.amount else 0
  }

  // Sum of the items over the first n ledger entries: of one payout, and of one currency.
  function ItemsOf(items: map<nat, Item>, p: nat, n: nat): int {
    if n == 0 then 0
    else ItemsOf(items, p, n - 1) + if n - 1 in items && items[n - 1].payout == p then items[n - 1].amount else 0
  }

  function Reserved(es: seq<Entry>, items: map<nat, Item>, c: Currency): int {
    if es == [] then 0
    else
      var n := |es| - 1;
      Reserved(es[..n], items, c) + if n in items && es[n].leg.currency == c then items[n].amount else 0
  }

  // What the reserved credits hold beyond the items that reserve them: the part of a partially
  // allocated credit no later payout can reach.
  function Stranded(es: seq<Entry>, items: map<nat, Item>, c: Currency): int {
    if es == [] then 0
    else
      var n := |es| - 1;
      Stranded(es[..n], items, c)
          + if n in items && es[n].leg.currency == c then es[n].leg.amount - items[n].amount else 0
  }

  // An item reserves an AVAILABLE credit of its payout's currency for at most the credit's amount.
  predicate GoodItem(s: State, i: nat)
    requires i in s.items
  {
    && i < |s.entries|
    && s.entries[i].leg.account == AVAILABLE && s.entries[i].leg.direction == CREDIT
    && s.items[i].payout < |s.payouts|
    && s.payouts[s.items[i].payout].currency == s.entries[i].leg.currency
    && 0 <= s.items[i].amount <= s.entries[i].leg.amount
  }

  // Items of a live payout add up to its amount and those of a dead one are gone; in total the items
  // of a currency are the live payouts of that currency. Paid payouts are exactly the PAYOUT debits of
  // AVAILABLE and the PAID_OUT balance, each posted once.
  ghost predicate PayoutInv(s: State) {
    && (forall i :: i in s.items ==> GoodItem(s, i))
    && (forall p :: 0 <= p < |s.payouts| ==>
          && 0 < s.payouts[p].amount
          && ItemsOf(s.items, p, |s.entries|) == if s.payouts[p].status in LIVE then s.payouts[p].amount else 0)
    && (forall c: Currency :: Reserved(s.entries, s.items, c) == PayoutSum(s.payouts, c, LIVE))
    && (forall c: Currency :: Total(PayoutDebitsOf(c), s.entries) == PayoutSum(s.payouts, c, {Paid}))
    && (forall c: Currency :: Total(BalanceOf(PAID_OUT, c), s.entries) == PayoutSum(s.payouts, c, {Paid}))
    && (forall p: nat ::
          Total(SettlementsOf(p), s.entries) == if p < |s.payouts| && s.payouts[p].status == Paid then 1 else 0)
  }

  predicate NoPayoutLegs(p: Posting) {
    && p.debit.category != PAYOUT && p.credit.category != PAYOUT
    && p.debit.account != PAID_OUT && p.credit.account != PAID_OUT
  }

  // ---------------------------------------------------------------------------
  // Appending entries reserves nothing
  // ---------------------------------------------------------------------------

  lemma {:induction false} ReservedExtends(es: seq<Entry>, more: seq<Entry>, items: map<nat, Item>, c: Currency)
    requires |es| <= |more| && more[..|es|] == es && forall i :: i in items ==> i < |es|
    ensures Reserved(more, items, c) == Reserved(es, items, c)
    ensures Stranded(more, items, c) == Stranded(es, items, c)
  {
    var n := |more| - 1;
    if |es| == |more| {
      assert more == es;
    } else {
      assert more[..n][..|es|] == es;
      ReservedExtends(es, more[..n], items, c);
    }
  }

  lemma {:induction false} ItemsExtend(items: map<nat, Item>, p: nat, n: nat, m: nat)
    requires n <= m && forall i :: i in items ==> i < n
    ensures ItemsOf(items, p, m) == ItemsOf(items, p, n)
  {
    if n < m { ItemsExtend(items, p, n, m - 1); }
  }

  lemma PayoutFrame(s: State, s': State, ps: seq<Posting>)
    requires PayoutInv(s) && s'.payouts == s.payouts && s'.items == s.items
    requires s'.entries == PostAll(s.entries, ps) && forall p :: p in ps ==> NoPayoutLegs(p)
    ensures PayoutInv(s')
  {
    PostAllExtends(s.entries, ps);
    forall i | i in s'.items
      ensures GoodItem(s', i)
    {
      assert GoodItem(s, i);
      assert s'.entries[i] == s.entries[i];
    }
    forall c: Currency
      ensures Reserved(s'.entries, s'.items, c) == Reserved(s.entries, s.items, c)
      ensures Total(PayoutDebitsOf(c), s'.entries) == Total(PayoutDebitsOf(c), s.entries)
      ensures Total(BalanceOf(PAID_OUT, c), s'.entries) == Total(BalanceOf(PAID_OUT, c), s.entries)
    {
      ReservedExtends(s.entries, s'.entries, s.items, c);
      Untouched(PayoutDebitsOf(c), s.entries, ps);
      Untouched(BalanceOf(PAID_OUT, c), s.entries, ps);
    }
    forall p: nat
      ensures ItemsOf(s'.items, p, |s'.entries|) == ItemsOf(s.items, p, |s.entries|)
      ensures Total(SettlementsOf(p), s'.entries) == Total(SettlementsOf(p), s.entries)
    {
      ItemsExtend(s.items, p, |s.entries|, |s'.entries|);
      Untouched(SettlementsOf(p), s.entries, ps);
    }
  }

  // ---------------------------------------------------------------------------
  // The FIFO allocation
  // ---------------------------------------------------------------------------

  lemma {:induction false} UnpaidMonotone(es: seq<Entry>, items: map<nat, Item>, c: Currency, n: nat)
    requires n <= |es| && forall i :: 0 <= i < |es| ==> 0 <= es[i].leg.amount
    ensures 0 <= UnpaidCredits(es[..n], items, c) <= UnpaidCredits(es, items, c)
  {
    if n < |es| {
      UnpaidMonotone(es[..|es| - 1], items, c, n);
      assert es[..|es| - 1][..n] == es[..n];
    } else {
      assert es[..n] == es;
      if es != [] {
        UnpaidMonotone(es[..|es| - 1], items, c, |es| - 1);
        assert es[..|es| - 1][..|es| - 1] == es[..|es| - 1];
      }
    }
  }

  lemma UnpaidStep(es: seq<Entry>, items: map<nat, Item>, c: Currency, n: nat)
    requires 0 < n <= |es| && forall i :: 0 <= i < |es| ==> 0 <= es[i].leg.amount
    ensures UnpaidCredits(es[..n], items, c)
            == UnpaidCredits(es[..n - 1], items, c) + if Unpaid(es, items, c, n - 1) then es[n - 1].leg.amount else 0
    ensures 0 <= UnpaidCredits(es[..n - 1], items, c) && 0 <= es[n - 1].leg.amount
  {
    assert es[..n][..n - 1] == es[..n - 1];
    UnpaidMonotone(es, items, c, n - 1);
  }

  // What the allocation adds at entry i.
  function Allotted(es: seq<Entry>, items: map<nat, Item>, c: Currency, payable: int, i: nat): int
    requires i < |es|
  {
    if Unpaid(es, items, c, i) && UnpaidCredits(es[..i], items, c) < payable
    then Min(es[i].leg.amount, payable - UnpaidCredits(es[..i], items, c)) else 0
  }

  lemma AllocationAt(es: seq<Entry>, items: map<nat, Item>, c: Currency, payable: int, id: nat, i: nat)
    requires i < |es|
    ensures var after := items + Allocate(es, items, c, payable, id);
            if Unpaid(es, items, c, i) && UnpaidCredits(es[..i], items, c) < payable
            then i !in items && i in after && after[i] == Item(id, Allotted(es, items, c, payable, i))
            else (i in after <==> i in items) && (i in items ==> after[i] == items[i])
  {
  }

  // After entry n the allocation has handed out the payable amount or, if that is less, all the unpaid
  // credits so far.
  lemma AllottedStep(es: seq<Entry>, items: map<nat, Item>, c: Currency, payable: int, n: nat)
    requires 0 < n <= |es| && forall i :: 0 <= i < |es| ==> 0 <= es[i].leg.amount
    ensures Min(payable, UnpaidCredits(es[..n], items, c))
            == Min(payable, UnpaidCredits(es[..n - 1], items, c)) + Allotted(es, items, c, payable, n - 1)
  {
    UnpaidStep(es, items, c, n);
  }

  lemma {:induction false} AllocationUpTo(es: seq<Entry>, items: map<nat, Item>, c: Currency, payable: int, id: nat,
                                          n: nat, p: nat)
    requires n <= |es| && 0 <= payable
    requires forall i :: 0 <= i < |es| ==> 0 <= es[i].leg.amount
    requires forall i :: i in items ==> items[i].payout != id
    ensures ItemsOf(items + Allocate(es, items, c, payable, id), p, n)
            == if p == id then Min(payable, UnpaidCredits(es[..n], items, c)) else ItemsOf(items, p, n)
  {
    if n > 0 {
      AllocationUpTo(es, items, c, payable, id, n - 1, p);
      AllocationAt(es, items, c, payable, id, n - 1);
      AllottedStep(es, items, c, payable, n);
    }
  }

  // First in, first out: when a credit is reserved every older unpaid one is too, whole; and nothing is
  // reserved at zero but a credit of zero.
  lemma FirstInFirstOut(es: seq<Entry>, items: map<nat, Item>, c: Currency, payable: int, id: nat, i: nat, j: nat)
    requires i < j < |es| && Unpaid(es, items, c, i) && j in Allocate(es, items, c, payable, id)
    requires forall k :: 0 <= k < |es| ==> 0 <= es[k].leg.amount
    ensures var added := Allocate(es, items, c, payable, id);
            && i in added && added[i] == Item(id, es[i].leg.amount)
            && (0 < added[j].amount || es[j].leg.amount == 0)
  {
    UnpaidStep(es, items, c, i + 1);
    UnpaidMonotone(es[..j], items, c, i + 1);
    assert es[..j][..i + 1] == es[..i + 1];
  }

  lemma {:induction false} AllocationReserves(es: seq<Entry>, items: map<nat, Item>, c: Currency, payable: int, id: nat,
                                              n: nat, x: Currency)
    requires n <= |es| && 0 <= payable
    requires forall i :: 0 <= i < |es| ==> 0 <= es[i].leg.amount
    ensures Reserved(es[..n], items + Allocate(es, items, c, payable, id), x)
            == Reserved(es[..n], items, x) + if x == c then Min(payable, UnpaidCredits(es[..n], items, c)) else 0
  {
    if n > 0 {
      AllocationReserves(es, items, c, payable, id, n - 1, x);
      assert es[..n][..n - 1] == es[..n - 1];
      AllocationAt(es, items, c, payable, id, n - 1);
      AllottedStep(es, items, c, payable, n);
    }
  }

  // Every AVAILABLE credit is either unpaid, or reserved by an item, or stranded beside one.
  lemma {:induction false} CreditsDecompose(es: seq<Entry>, items: map<nat, Item>, c: Currency)
    requires forall i :: i in items && i < |es| ==> es[i].leg.account == AVAILABLE && es[i].leg.direction == CREDIT
    ensures Total(CreditsTo(AVAILABLE, c), es)
            == UnpaidCredits(es, items, c) + Reserved(es, items, c) + Stranded(es, items, c)
  {
    if es != [] { CreditsDecompose(es[..|es| - 1], items, c); }
  }

  lemma {:induction false} StrandedNonNegative(es: seq<Entry>, items: map<nat, Item>, c: Currency)
    requires forall i :: i in items && i < |es| ==> items[i].amount <= es[i].leg.amount
    ensures 0 <= Stranded(es, items, c)
  {
    if es != [] { StrandedNonNegative(es[..|es| - 1], items, c); }
  }

  lemma {:induction false} PayoutSumSplits(payouts: seq<Payout>, c: Currency)
    ensures PayoutSum(payouts, c, LIVE) == PayoutSum(payouts, c, OPEN) + PayoutSum(payouts, c, {Paid})
  {
    if payouts != [] { PayoutSumSplits(payouts[..|payouts| - 1], c); }
  }

  // ---------------------------------------------------------------------------
  // The transactions
  // ---------------------------------------------------------------------------

  lemma SweepKeepsPayouts(s: State, c: Currency, rates: Rates)
    requires PayoutInv(s) && LedgerInv(s.entries)
    ensures PayoutInv(Swept(s, c, rates)) && LedgerInv(Swept(s, c, rates).entries)
  {
    var ps := SweepPlan(s.entries, c, rates, |SUPPORTED_CURRENCIES|);
    SweepPostingsAreAdjustments(s.entries, c, rates, |SUPPORTED_CURRENCIES|);
    PayoutFrame(s, Swept(s, c, rates), ps);
    PostAllKeepsLedger(s.entries, ps);
  }

  predicate FxPosting(p: Posting) {
    && p.debit.party == None && p.credit.party == None
    && p.debit.category == p.credit.category && p.debit.category in {ADJUSTMENT, FX_ADJUSTMENT}
    && p.debit.account in {CASH, AVAILABLE, FEES} && p.credit.account in {CASH, AVAILABLE, FEES}
    && p.source in {FromFxConversion, FromFxAdjustment}
  }

  lemma {:induction false} SweepPostingsAreAdjustments(es: seq<Entry>, to: Currency, rates: Rates, n: nat)
    requires n <= |SUPPORTED_CURRENCIES|
    ensures forall p :: p in SweepPlan(es, to, rates, n) ==> FxPosting(p)
  {
    if n > 0 {
      SweepPostingsAreAdjustments(es, to, rates, n - 1);
      var c := SUPPORTED_CURRENCIES[n - 1];
      var b := Total(BalanceOf(AVAILABLE, c), es);
      if c != to && b > 0 { ConversionNonNegative(b, RateOf(rates, c)); }
      assert forall p :: p in ConversionOf(c, to, b, rates) ==> FxPosting(p);
    }
  }

  lemma {:induction false} PayoutSumAppend(payouts: seq<Payout>, p: Payout, c: Currency, statuses: set<PayoutStatus>)
    ensures PayoutSum(payouts + [p], c, statuses)
            == PayoutSum(payouts, c, statuses) + if p.currency == c && p.status in statuses then p.amount else 0
  {
    assert (payouts + [p])[..|payouts|] == payouts;
  }

  lemma SnapshotItemsAreGood(s: State, key: nat, c: Currency, payable: int, i: nat)
    requires PayoutInv(s) && 0 < payable
    requires forall k :: 0 <= k < |s.entries| ==> 0 <= s.entries[k].leg.amount
    requires i in Snapshot(s, key, c, payable).items
    ensures GoodItem(Snapshot(s, key, c, payable), i)
  {
    if i in s.items {
      assert GoodItem(s, i);
    } else {
      UnpaidMonotone(s.entries, s.items, c, i);
    }
  }

  lemma SnapshotKeepsPayouts(s: State, key: nat, c: Currency, payable: int)
    requires PayoutInv(s)
    requires forall k :: 0 <= k < |s.entries| ==> 0 <= s.entries[k].leg.amount
    requires 0 < payable <= UnpaidCredits(s.entries, s.items, c)
    ensures PayoutInv(Snapshot(s, key, c, payable))
  {
    var es, id, s' := s.entries, |s.payouts|, Snapshot(s, key, c, payable);
    assert es[..|es|] == es;
    forall i | i in s.items
      ensures s.items[i].payout != id
    {
      assert GoodItem(s, i);
    }
    forall i | i in s'.items
      ensures GoodItem(s', i)
    {
      SnapshotItemsAreGood(s, key, c, payable, i);
    }
    forall p | 0 <= p < |s'.payouts|
      ensures 0 < s'.payouts[p].amount
      ensures ItemsOf(s'.items, p, |es|) == if s'.payouts[p].status in LIVE then s'.payouts[p].amount else 0
    {
      AllocationUpTo(es, s.items, c, payable, id, |es|, p);
      if p < id { assert s'.payouts[p] == s.payouts[p]; }
    }
    forall x: Currency { SnapshotReserves(s, key, c, payable, x); }
  }

  // A snapshot reserves exactly its amount, in its currency.
  lemma SnapshotReserves(s: State, key: nat, c: Currency, payable: int, x: Currency)
    requires forall k :: 0 <= k < |s.entries| ==> 0 <= s.entries[k].leg.amount
    requires 0 < payable <= UnpaidCredits(s.entries, s.items, c)
    requires Reserved(s.entries, s.items, x) == PayoutSum(s.payouts, x, LIVE)
    ensures var s' := Snapshot(s, key, c, payable);
            && Reserved(s.entries, s'.items, x) == PayoutSum(s'.payouts, x, LIVE)
            && PayoutSum(s'.payouts, x, {Paid}) == PayoutSum(s.payouts, x, {Paid})
  {
    assert s.entries[..|s.entries|] == s.entries;
    AllocationReserves(s.entries, s.items, c, payable, |s.payouts|, |s.entries|, x);
    PayoutSumAppend(s.payouts, Payout(key, payable, c, Draft), x, LIVE);
    PayoutSumAppend(s.payouts, Payout(key, payable, c, Draft), x, {Paid});
  }

  lemma PayableAtMostUnpaid(s: State, c: Currency)
    requires LedgerInv(s.entries)
    ensures forall i :: 0 <= i < |s.entries| ==> 0 <= s.entries[i].leg.amount
    ensures Payable(s, c) <= UnpaidCredits(s.entries, s.items, c)
  {
    forall i | 0 <= i < |s.entries|
      ensures 0 <= s.entries[i].leg.amount
    {
      AmountsNonNegative(s.entries, i);
    }
    DebitTotalsNonNegative(s.entries, c);
  }

  lemma CreateKeepsPayouts(s: State, key: nat, c: Currency, rates: Rates)
    requires PayoutInv(s) && LedgerInv(s.entries)
    ensures PayoutInv(After(s, CreatePayout(s, key, c, rates)))
  {
    if CreatePayout(s, key, c, rates).Commit? && PayoutByKey(s.payouts, key).None? {
      var swept := Swept(s, c, rates);
      SweepKeepsPayouts(s, c, rates);
      PayableAtMostUnpaid(swept, c);
      SnapshotKeepsPayouts(swept, key, c, Payable(swept, c));
    }
  }

  // The exact worth of a snapshot: what is net payable is the AVAILABLE balance, less every open
  // payout, less what earlier partial allocations have stranded.
  lemma NetPayable(s: State, c: Currency)
    requires PayoutInv(s)
    ensures Payable(s, c) == Total(BalanceOf(AVAILABLE, c), s.entries) - PayoutSum(s.payouts, c, OPEN)
                             - Stranded(s.entries, s.items, c)
    ensures 0 <= Stranded(s.entries, s.items, c)
  {
    forall i | i in s.items
      ensures GoodItem(s, i)
    {
    }
    AvailableDecomposes(s.entries, c);
    CreditsDecompose(s.entries, s.items, c);
    StrandedNonNegative(s.entries, s.items, c);
    PayoutSumSplits(s.payouts, c);
  }

  // Every item of the currency reserves the whole of its credit.
  predicate NoPartialItem(es: seq<Entry>, items: map<nat, Item>, c: Currency) {
    forall i :: 0 <= i < |es| && i in items && es[i].leg.currency == c ==> items[i].amount == es[i].leg.amount
  }

  lemma {:induction false} NothingStrandedExactlyWhen(es: seq<Entry>, items: map<nat, Item>, c: Currency)
    requires forall i :: i in items && i < |es| ==> items[i].amount <= es[i].leg.amount
    ensures Stranded(es, items, c) == 0 <==> NoPartialItem(es, items, c)
  {
    if es != [] {
      var n := |es| - 1;
      NothingStrandedExactlyWhen(es[..n], items, c);
      StrandedNonNegative(es[..n], items, c);
      assert NoPartialItem(es, items, c)
          <==> && NoPartialItem(es[..n], items, c)
               && (n in items && es[n].leg.currency == c ==> items[n].amount == es[n].leg.amount);
    }
  }

  // Everything AVAILABLE holds beyond the open payouts is payable exactly when no payout, paid or open,
  // has taken only part of a credit.
  lemma AllIsPayableExactlyWhen(s: State, c: Currency)
    requires PayoutInv(s)
    ensures Payable(s, c) == Total(BalanceOf(AVAILABLE, c), s.entries) - PayoutSum(s.payouts, c, OPEN)
            <==> NoPartialItem(s.entries, s.items, c)
  {
    NetPayable(s, c);
    assert forall i :: i in s.items ==> GoodItem(s, i);
    NothingStrandedExactlyWhen(s.entries, s.items, c);
  }

  // A new snapshot never exceeds what AVAILABLE holds beyond every open payout, and misses it by
  // exactly what earlier partial allocations have stranded; right after it, the open payouts of its
  // currency are together covered by AVAILABLE.
  lemma SnapshotIsCovered(s: State, key: nat, c: Currency, rates: Rates)
    requires PayoutInv(s) && LedgerInv(s.entries)
    requires CreatePayout(s, key, c, rates).Commit? && PayoutByKey(s.payouts, key).None?
    ensures var t := CreatePayout(s, key, c, rates).state;
            var amount := t.payouts[|s.payouts|].amount;
            var available := Total(BalanceOf(AVAILABLE, c), t.entries);
            && 0 < amount
            && amount == available - PayoutSum(s.payouts, c, OPEN) - Stranded(t.entries, s.items, c)
            && 0 <= Stranded(t.entries, s.items, c)
            && PayoutSum(t.payouts, c, OPEN) <= available
  {
    SweepKeepsPayouts(s, c, rates);
    NetPayable(Swept(s, c, rates), c);
    PayoutSumAppend(s.payouts, Payout(key, Payable(Swept(s, c, rates), c), c, Draft), c, OPEN);
  }

  // The exact condition for a first snapshot under a key: something is left beyond the open payouts
  // and the stranded remainders once the foreign balances are in.
  lemma SnapshotCommitsExactlyWhen(s: State, key: nat, c: Currency, rates: Rates)
    requires PayoutInv(s) && LedgerInv(s.entries) && PayoutByKey(s.payouts, key).None?
    ensures CreatePayout(s, key, c, rates).Commit?
            <==> PayoutSum(s.payouts, c, OPEN) + Stranded(s.entries, s.items, c)
                 < Total(BalanceOf(AVAILABLE, c), s.entries) + SweptInto(s.entries, c, rates, |SUPPORTED_CURRENCIES|)
  {
    SweepKeepsPayouts(s, c, rates);
    NetPayable(Swept(s, c, rates), c);
    SweepMeaning(s.entries, c, rates, AVAILABLE, c);
    PostAllExtends(s.entries, SweepPlan(s.entries, c, rates, |SUPPORTED_CURRENCIES|));
    forall i | i in s.items
      ensures i < |s.entries|
    {
      assert GoodItem(s, i);
    }
    ReservedExtends(s.entries, Swept(s, c, rates).entries, s.items, c);
  }

  lemma {:induction false} ReleasedItems(items: map<nat, Item>, id: nat, p: nat, n: nat)
    ensures ItemsOf(Release(items, id), p, n) == if p == id then 0 else ItemsOf(items, p, n)
  {
    if n > 0 { ReleasedItems(items, id, p, n - 1); }
  }

  // Releasing a payout's items gives back exactly those items, all in the payout's currency.
  lemma {:induction false} ReleasedReserve(es: seq<Entry>, items: map<nat, Item>, id: nat, currency: Currency,
                                           c: Currency)
    requires forall i :: i in items && i < |es| && items[i].payout == id ==> es[i].leg.currency == currency
    ensures Reserved(es, Release(items, id), c)
            == Reserved(es, items, c) - if c == currency then ItemsOf(items, id, |es|) else 0
  {
    if es != [] { ReleasedReserve(es[..|es| - 1], items, id, currency, c); }
  }

  lemma {:induction false} PayoutSumUpdate(payouts: seq<Payout>, id: nat, status: PayoutStatus, c: Currency,
                                           statuses: set<PayoutStatus>)
    requires id < |payouts|
    ensures PayoutSum(WithStatus(payouts, id, status), c, statuses)
            == PayoutSum(payouts, c, statuses)
               + (if payouts[id].currency == c && status in statuses then payouts[id].amount else 0)
               - (if payouts[id].currency == c && payouts[id].status in statuses then payouts[id].amount else 0)
  {
    var n := |payouts| - 1;
    if id == n {
      assert WithStatus(payouts, id, status)[..n] == payouts[..n];
    } else {
      assert WithStatus(payouts, id, status)[..n] == WithStatus(payouts[..n], id, status);
      PayoutSumUpdate(payouts[..n], id, status, c, statuses);
    }
  }

  // Changing a status, or dropping other items, leaves an item good.
  lemma StatusKeepsItem(s: State, id: nat, status: PayoutStatus, items: map<nat, Item>, i: nat)
    requires id < |s.payouts| && i in s.items && i in items && items[i] == s.items[i] && GoodItem(s, i)
    ensures GoodItem(s.(items := items, payouts := WithStatus(s.payouts, id, status)), i)
  {
  }

  // What the transaction of a cancellation or failure writes. Its status check comes before the
  // transaction, so that the payout may have moved on in between.
  function Dropped(s: State, id: nat, status: PayoutStatus): State
    requires id < |s.payouts|
  {
    s.(items := Release(s.items, id), payouts := WithStatus(s.payouts, id, status))
  }

  // An open payout that is cancelled or fails gives its credits back; one already dropped has none.
  lemma DroppingKeepsPayouts(s: State, id: nat, status: PayoutStatus)
    requires PayoutInv(s) && id < |s.payouts| && s.payouts[id].status != Paid && status in {Failed, Cancelled}
    ensures PayoutInv(Dropped(s, id, status))
  {
    var s' := Dropped(s, id, status);
    assert forall i :: i in s.items ==> GoodItem(s, i);
    forall i | i in s'.items
      ensures GoodItem(s', i)
    {
      StatusKeepsItem(s, id, status, s'.items, i);
    }
    forall p: nat
      ensures ItemsOf(s'.items, p, |s.entries|) == if p == id then 0 else ItemsOf(s.items, p, |s.entries|)
    {
      ReleasedItems(s.items, id, p, |s.entries|);
    }
    forall c: Currency { DroppingReleases(s, id, status, c); }
  }

  // Dropping an open payout takes exactly its amount off what is reserved, in its currency.
  lemma DroppingReleases(s: State, id: nat, status: PayoutStatus, c: Currency)
    requires PayoutInv(s) && id < |s.payouts| && s.payouts[id].status != Paid && status in {Failed, Cancelled}
    ensures Reserved(s.entries, Release(s.items, id), c) == PayoutSum(WithStatus(s.payouts, id, status), c, LIVE)
    ensures PayoutSum(WithStatus(s.payouts, id, status), c, {Paid}) == PayoutSum(s.payouts, c, {Paid})
  {
    assert forall i :: i in s.items ==> GoodItem(s, i);
    ReleasedReserve(s.entries, s.items, id, s.payouts[id].currency, c);
    PayoutSumUpdate(s.payouts, id, status, c, LIVE);
    PayoutSumUpdate(s.payouts, id, status, c, {Paid});
  }

  // However the payout has moved on since the status check, the payout equations survive exactly when it
  // has not been paid: dropping a paid payout leaves its settlement without a payout.
  lemma LateDropKeepsExactlyWhen(s: State, id: nat, status: PayoutStatus)
    requires PayoutInv(s) && id < |s.payouts| && status in {Failed, Cancelled}
    ensures PayoutInv(Dropped(s, id, status)) <==> s.payouts[id].status != Paid
  {
    if s.payouts[id].status != Paid {
      DroppingKeepsPayouts(s, id, status);
    } else {
      var c := s.payouts[id].currency;
      PayoutSumUpdate(s.payouts, id, status, c, {Paid});
      assert Total(PayoutDebitsOf(c), s.entries) == PayoutSum(s.payouts, c, {Paid});
    }
  }

  // Cancelling or failing a fresh snapshot gives back exactly what it reserved: the items are those of
  // before, and a new snapshot is offered the same amount.
  lemma DroppingUndoesSnapshot(s: State, key: nat, c: Currency, rates: Rates)
    requires PayoutInv(s) && LedgerInv(s.entries)
    requires CreatePayout(s, key, c, rates).Commit? && PayoutByKey(s.payouts, key).None?
    ensures var id, t := |s.payouts|, CreatePayout(s, key, c, rates).state;
            && CancelPayout(t, id).Commit? && MarkPayoutFailed(t, id).Commit?
            && CancelPayout(t, id).state.(payouts := s.payouts) == Swept(s, c, rates)
            && MarkPayoutFailed(t, id).state.(payouts := s.payouts) == Swept(s, c, rates)
            && Payable(CancelPayout(t, id).state, c) == Payable(MarkPayoutFailed(t, id).state, c)
               == t.payouts[id].amount
  {
    var id, t := |s.payouts|, CreatePayout(s, key, c, rates).state;
    ReleaseUndoesAllocate(s, Swept(s, c, rates).entries, c, t.payouts[id].amount);
  }

  lemma ReleaseUndoesAllocate(s: State, es: seq<Entry>, c: Currency, payable: int)
    requires PayoutInv(s)
    ensures var id := |s.payouts|;
            Release(s.items + Allocate(es, s.items, c, payable, id), id) == s.items
  {
    var id := |s.payouts|;
    var added := Allocate(es, s.items, c, payable, id);
    forall i | i in s.items
      ensures s.items[i].payout != id && i !in added
    {
      assert GoodItem(s, i);
    }
    assert forall i :: i in added ==> added[i].payout == id;
  }

  lemma CancelKeepsPayouts(s: State, id: nat)
    requires PayoutInv(s)
    ensures PayoutInv(After(s, CancelPayout(s, id)))
  {
    if CancelPayout(s, id).Commit? { DroppingKeepsPayouts(s, id, Cancelled); }
  }

  lemma FailKeepsPayouts(s: State, id: nat)
    requires PayoutInv(s)
    ensures PayoutInv(After(s, MarkPayoutFailed(s, id)))
  {
    if MarkPayoutFailed(s, id).Commit? { DroppingKeepsPayouts(s, id, Failed); }
  }

  lemma AdvanceKeepsPayouts(s: State, id: nat, to: PayoutStatus)
    requires PayoutInv(s)
    ensures PayoutInv(After(s, AdvancePayout(s, id, to)))
  {
    if AdvancePayout(s, id, to).Commit? {
      var s' := After(s, AdvancePayout(s, id, to));
      forall c: Currency
        ensures PayoutSum(s'.payouts, c, LIVE) == PayoutSum(s.payouts, c, LIVE)
        ensures PayoutSum(s'.payouts, c, {Paid}) == PayoutSum(s.payouts, c, {Paid})
      {
        PayoutSumUpdate(s.payouts, id, to, c, LIVE);
        PayoutSumUpdate(s.payouts, id, to, c, {Paid});
      }
      forall i | i in s'.items
        ensures GoodItem(s', i)
      {
        StatusKeepsItem(s, id, to, s.items, i);
      }
    }
  }

  lemma SettlementTotals(s: State, id: nat, c: Currency)
    requires PayoutInv(s) && id < |s.payouts| && s.payouts[id].status in OPEN
    ensures var t := PaidOut(s, id);
            && Total(PayoutDebitsOf(c), t.entries) == PayoutSum(t.payouts, c, {Paid})
            && Total(BalanceOf(PAID_OUT, c), t.entries) == PayoutSum(t.payouts, c, {Paid})
            && PayoutSum(t.payouts, c, LIVE) == PayoutSum(s.payouts, c, LIVE)
  {
    var move := Settlement(id, s.payouts[id]);
    PayoutSumUpdate(s.payouts, id, Paid, c, LIVE);
    PayoutSumUpdate(s.payouts, id, Paid, c, {Paid});
    PostEffect(PayoutDebitsOf(c), s.entries, move);
    PostEffect(BalanceOf(PAID_OUT, c), s.entries, move);
  }

  lemma SettlementKeepsItems(s: State, id: nat, i: nat)
    requires id < |s.payouts| && i in s.items && GoodItem(s, i)
    ensures GoodItem(PaidOut(s, id), i)
  {
  }

  lemma SettlementKeepsItemSums(s: State, id: nat, q: nat)
    requires PayoutInv(s) && id < |s.payouts|
    ensures var t := PaidOut(s, id);
            && ItemsOf(t.items, q, |t.entries|) == ItemsOf(s.items, q, |s.entries|)
            && Total(SettlementsOf(q), t.entries) == Total(SettlementsOf(q), s.entries) + if q == id then 1 else 0
  {
    var move := Settlement(id, s.payouts[id]);
    assert forall i :: i in s.items ==> GoodItem(s, i);
    PostEffect(SettlementsOf(q), s.entries, move);
    ItemsExtend(s.items, q, |s.entries|, |s.entries| + 2);
  }

  lemma SettlementKeepsPayouts(s: State, id: nat)
    requires PayoutInv(s) && id < |s.payouts| && s.payouts[id].status in OPEN
    ensures PayoutInv(PaidOut(s, id))
  {
    var s', move := PaidOut(s, id), Settlement(id, s.payouts[id]);
    PostEffect(NetOf(MAD), s.entries, move);
    forall i | i in s.items
      ensures i < |s.entries| && GoodItem(s', i)
    {
      assert GoodItem(s, i);
      SettlementKeepsItems(s, id, i);
    }
    forall c: Currency
      ensures Reserved(s'.entries, s'.items, c) == Reserved(s.entries, s.items, c)
      ensures PayoutSum(s'.payouts, c, LIVE) == PayoutSum(s.payouts, c, LIVE)
      ensures Total(PayoutDebitsOf(c), s'.entries) == PayoutSum(s'.payouts, c, {Paid})
      ensures Total(BalanceOf(PAID_OUT, c), s'.entries) == PayoutSum(s'.payouts, c, {Paid})
    {
      ReservedExtends(s.entries, s'.entries, s.items, c);
      SettlementTotals(s, id, c);
    }
    forall q: nat
      ensures ItemsOf(s'.items, q, |s'.entries|) == ItemsOf(s.items, q, |s.entries|)
      ensures Total(SettlementsOf(q), s'.entries) == Total(SettlementsOf(q), s.entries) + if q == id then 1 else 0
    {
      SettlementKeepsItemSums(s, id, q);
    }
  }

  lemma PaidKeepsPayouts(s: State, id: nat)
    requires PayoutInv(s)
    ensures PayoutInv(After(s, MarkPayoutPaid(s, id)))
  {
    if MarkPayoutPaid(s, id).Commit? { SettlementKeepsPayouts(s, id); }
  }

  // Paying never overdraws: AVAILABLE is left non-negative and PAID_OUT gains exactly the amount.
  lemma PaymentIsFunded(s: State, id: nat)
    requires MarkPayoutPaid(s, id).Commit?
    ensures var t, p := MarkPayoutPaid(s, id).state, s.payouts[id];
            && 0 <= Total(BalanceOf(AVAILABLE, p.currency), t.entries)
            && Total(BalanceOf(PAID_OUT, p.currency), t.entries)
               == Total(BalanceOf(PAID_OUT, p.currency), s.entries) + p.amount
  {
    var p := s.payouts[id];
    PostEffect(BalanceOf(AVAILABLE, p.currency), s.entries, Settlement(id, p));
    PostEffect(BalanceOf(PAID_OUT, p.currency), s.entries, Settlement(id, p));
  }
}
