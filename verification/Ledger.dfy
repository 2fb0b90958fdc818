// The double-entry ledger: postings, the append-only entry table and every balance read off it.
//
// All sums over the entry table are instances of one function, `Total`, over a small vocabulary of
// queries, so that one lemma (`PostEffect`) says what a posting does to each of them.
module Ledger {
  import opened Prelude
  import opened Money

  datatype Account = CASH | PENDING | COLLECTED | AVAILABLE | RESERVE | FEES | PAID_OUT | WALLET | TAX_PAYABLE

  datatype Category =
    | CAPTURE | REFUND | FEE | SPLIT | PAYOUT | CHARGEBACK | RESERVE_RELEASE
    | ADJUSTMENT | FX_ADJUSTMENT | DISBURSEMENT | TAX

  datatype Direction = DEBIT | CREDIT

  type PartyId = nat

  // The (sourceType, sourceId) pair of an entry. `FromCaller` is any pair a caller of the split
  // endpoint makes up that is not one of the engine's own.
  datatype Source =
    | FromIntent(id: nat)
    | FromWallet(id: nat)
    | FromPayout(id: nat)
    | FromSplit(id: nat)
    | FromDispute(id: nat)
    | FromRefund(id: nat)
    | FromFxConversion
    | FromFxAdjustment
    | FromCaller(kind: nat, id: nat)

  datatype Leg = Leg(account: Account, direction: Direction, amount: int, category: Category,
                     currency: Currency, party: Option<PartyId>)

  datatype Posting = Posting(debit: Leg, credit: Leg, source: Source)

  datatype Entry = Entry(leg: Leg, balanceAfter: int, source: Source)

  function DebitLeg(account: Account, amount: int, category: Category, party: Option<PartyId>,
                    currency: Currency): Leg
  {
    Leg(account, DEBIT, amount, category, currency, party)
  }

  function CreditLeg(account: Account, amount: int, category: Category, party: Option<PartyId>,
                     currency: Currency): Leg
  {
    Leg(account, CREDIT, amount, category, currency, party)
  }

  // Signed contribution of a leg to its account's balance: credit +, debit -.
  function Delta(leg: Leg): int {
    if leg.direction == CREDIT then leg.amount else -leg.amount
  }

  // What `posting` accepts: two opposite legs of one non-negative amount in one currency, on
  // different accounts or different parties.
  predicate ValidPosting(p: Posting) {
    && p.debit.direction == DEBIT
    && p.credit.direction == CREDIT
    && p.debit.currency == p.credit.currency
    && p.debit.amount == p.credit.amount
    && 0 <= p.debit.amount
    && (p.debit.account != p.credit.account || p.debit.party != p.credit.party)
  }

  function MakePosting(debit: Leg, credit: Leg, source: Source): (r: Result<Posting, Error>)
    ensures r.Ok? <==> ValidPosting(Posting(debit, credit, source))
    ensures r.Ok? ==> r.value == Posting(debit, credit, source)
    // Directions are looked at before currencies, those before amounts, and those before the accounts.
    ensures r == Err(LegDirection) <==> debit.direction != DEBIT || credit.direction != CREDIT
    ensures r == Err(MixedCurrencies) ==> debit.currency != credit.currency
    ensures r == Err(UnequalLegs) ==> debit.currency == credit.currency && debit.amount != credit.amount
    ensures r == Err(NegativeAmount) ==> debit.amount == credit.amount < 0
    ensures r == Err(SameAccountAndParty) ==> 0 <= debit.amount == credit.amount
    ensures r.Err? ==> r.error in {LegDirection, MixedCurrencies, UnequalLegs, NegativeAmount, SameAccountAndParty}
  {
    if debit.direction != DEBIT then Err(LegDirection)
    else if credit.direction != CREDIT then Err(LegDirection)
    else if debit.currency != credit.currency then Err(MixedCurrencies)
    else if debit.amount != credit.amount then Err(UnequalLegs)
    else if debit.amount < 0 then Err(NegativeAmount)
    else if debit.account == credit.account && debit.party == credit.party then Err(SameAccountAndParty)
    else Ok(Posting(debit, credit, source))
  }

  // An untagged move of `amount` from one account to another.
  function Move(from: Account, to: Account, amount: int, category: Category, currency: Currency,
                source: Source): Posting
  {
    Posting(DebitLeg(from, amount, category, None, currency), CreditLeg(to, amount, category, None, currency), source)
  }

  // ---------------------------------------------------------------------------
  // Sums over the entry table
  // ---------------------------------------------------------------------------

  datatype Query =
    | BalanceOf(account: Account, currency: Currency)
    | PartyBalanceOf(account: Account, currency: Currency, party: PartyId)
    | NetOf(currency: Currency)
    | CreditsTo(account: Account, currency: Currency)
    | DebitsOf(account: Account, currency: Currency)
    | PayoutDebitsOf(currency: Currency)
    | OtherDebitsOf(currency: Currency)
    | SettlementsOf(payout: nat)    // how many PAID_OUT credits payout `payout` has
    | ReleasesOf(split: nat)        // how many RESERVE_RELEASE credits split `split` has
    | ClawedFor(dispute: nat)       // CASH credited by chargebacks of dispute `dispute`

  function LegWeight(q: Query, leg: Leg, source: Source): int {
    match q
    case BalanceOf(a, c) => if leg.account == a && leg.currency == c then Delta(leg) else 0
    case PartyBalanceOf(a, c, p) =>
      if leg.account == a && leg.currency == c && leg.party == Some(p) then Delta(leg) else 0
    case NetOf(c) => if leg.currency == c then Delta(leg) else 0
    case CreditsTo(a, c) =>
      if leg.account == a && leg.currency == c && leg.direction == CREDIT then leg.amount else 0
    case DebitsOf(a, c) =>
      if leg.account == a && leg.currency == c && leg.direction == DEBIT then leg.amount else 0
    case PayoutDebitsOf(c) =>
      if leg.account == AVAILABLE && leg.currency == c && leg.direction == DEBIT && leg.category == PAYOUT
      then leg.amount else 0
    case OtherDebitsOf(c) =>
      if leg.account == AVAILABLE && leg.currency == c && leg.direction == DEBIT && leg.category != PAYOUT
      then leg.amount else 0
    case SettlementsOf(p) =>
      if leg.account == PAID_OUT && leg.direction == CREDIT && source == FromPayout(p) then 1 else 0
    case ReleasesOf(k) =>
      if leg.category == RESERVE_RELEASE && leg.direction == CREDIT && source == FromSplit(k) then 1 else 0
    case ClawedFor(d) =>
      if leg.account == CASH && leg.category == CHARGEBACK && leg.direction == CREDIT && source == FromDispute(d)
      then leg.amount else 0
  }

  function Total(q: Query, es: seq<Entry>): int {
    if es == [] then 0
    else Total(q, es[..|es| - 1]) + LegWeight(q, es[|es| - 1].leg, es[|es| - 1].source)
  }

  // The table after one posting: both snapshots are read off the table before either row is written.
  function Post(es: seq<Entry>, p: Posting): seq<Entry> {
    var currency := p.debit.currency;
    var debitAfter := Total(BalanceOf(p.debit.account, currency), es) + Delta(p.debit);
    var creditAfter := Total(BalanceOf(p.credit.account, currency), es) + Delta(p.credit);
    es + [Entry(p.debit, debitAfter, p.source), Entry(p.credit, creditAfter, p.source)]
  }

  function PostAll(es: seq<Entry>, ps: seq<Posting>): seq<Entry> {
    if ps == [] then es else Post(PostAll(es, ps[..|ps| - 1]), ps[|ps| - 1])
  }

  // What one posting adds to a query.
  function Effect(q: Query, p: Posting): int {
    LegWeight(q, p.debit, p.source) + LegWeight(q, p.credit, p.source)
  }

  function Effects(q: Query, ps: seq<Posting>): int {
    if ps == [] then 0 else Effects(q, ps[..|ps| - 1]) + Effect(q, ps[|ps| - 1])
  }

  lemma TotalAppend(q: Query, es: seq<Entry>, e: Entry)
    ensures Total(q, es + [e]) == Total(q, es) + LegWeight(q, e.leg, e.source)
  {
    assert (es + [e])[..|es|] == es;
  }

  lemma {:induction false} TotalConcat(q: Query, a: seq<Entry>, b: seq<Entry>)
    ensures Total(q, a + b) == Total(q, a) + Total(q, b)
  {
    if b == [] {
      assert a + b == a;
    } else {
      var n := |b| - 1;
      assert a + b == (a + b[..n]) + [b[n]];
      TotalAppend(q, a + b[..n], b[n]);
      TotalConcat(q, a, b[..n]);
    }
  }

  lemma PostEffect(q: Query, es: seq<Entry>, p: Posting)
    ensures Total(q, Post(es, p)) == Total(q, es) + Effect(q, p)
    ensures |Post(es, p)| == |es| + 2 && Post(es, p)[..|es|] == es
  {
    var after := Post(es, p);
    TotalAppend(q, es, after[|es|]);
    assert after == (es + [after[|es|]]) + [after[|es| + 1]];
    TotalAppend(q, es + [after[|es|]], after[|es| + 1]);
  }

  lemma {:induction false} PostAllEffect(q: Query, es: seq<Entry>, ps: seq<Posting>)
    ensures Total(q, PostAll(es, ps)) == Total(q, es) + Effects(q, ps)
  {
    if ps != [] {
      var n := |ps| - 1;
      PostAllEffect(q, es, ps[..n]);
      PostEffect(q, PostAll(es, ps[..n]), ps[n]);
    }
  }

  lemma {:induction false} PostAllExtends(es: seq<Entry>, ps: seq<Posting>)
    ensures |PostAll(es, ps)| == |es| + 2 * |ps|
    ensures PostAll(es, ps)[..|es|] == es
  {
    if ps != [] {
      var n := |ps| - 1;
      PostAllExtends(es, ps[..n]);
      PostEffect(NetOf(MAD), PostAll(es, ps[..n]), ps[n]);
    }
  }

  lemma PostAllSnoc(es: seq<Entry>, ps: seq<Posting>, p: Posting)
    ensures PostAll(es, ps + [p]) == Post(PostAll(es, ps), p)
  {
    assert (ps + [p])[..|ps|] == ps;
  }

  lemma {:induction false} PostAllConcat(es: seq<Entry>, a: seq<Posting>, b: seq<Posting>)
    ensures PostAll(es, a + b) == PostAll(PostAll(es, a), b)
  {
    if b == [] {
      assert a + b == a;
    } else {
      var n := |b| - 1;
      assert a + b == (a + b[..n]) + [b[n]];
      PostAllSnoc(es, a + b[..n], b[n]);
      PostAllConcat(es, a, b[..n]);
    }
  }

  lemma {:induction false} EffectsConcat(q: Query, a: seq<Posting>, b: seq<Posting>)
    ensures Effects(q, a + b) == Effects(q, a) + Effects(q, b)
  {
    if b == [] {
      assert a + b == a;
    } else {
      var n := |b| - 1;
      assert a + b == (a + b[..n]) + [b[n]];
      assert (a + b)[..|a + b| - 1] == a + b[..n];
      EffectsConcat(q, a, b[..n]);
    }
  }

  // A query no posting of the batch touches keeps its value.
  lemma {:induction false} Untouched(q: Query, es: seq<Entry>, ps: seq<Posting>)
    requires forall p :: p in ps ==> Effect(q, p) == 0
    ensures Total(q, PostAll(es, ps)) == Total(q, es)
  {
    if ps != [] {
      var n := |ps| - 1;
      Untouched(q, es, ps[..n]);
      PostEffect(q, PostAll(es, ps[..n]), ps[n]);
      assert ps[n] in ps;
    }
  }

  // ---------------------------------------------------------------------------
  // The ledger invariant
  // ---------------------------------------------------------------------------

  // The running balance entry i's snapshot should show.
  function RunningBalance(es: seq<Entry>, i: nat): int
    requires i < |es|
  {
    Total(BalanceOf(es[i].leg.account, es[i].leg.currency), es[..i + 1])
  }

  predicate SnapshotAt(es: seq<Entry>, i: nat)
    requires i < |es|
  {
    es[i].balanceAfter == RunningBalance(es, i)
  }

  // Entries i and i + 1 are the debit and credit of one valid posting. The debit snapshot is the
  // running balance; the credit snapshot is the running balance plus, when both legs share the
  // account, the amount the debit leg took.
  predicate PairAt(es: seq<Entry>, i: nat)
    requires i + 1 < |es|
  {
    && ValidPosting(Posting(es[i].leg, es[i + 1].leg, es[i].source))
    && es[i].source == es[i + 1].source
    && SnapshotAt(es, i)
    && es[i + 1].balanceAfter
       == RunningBalance(es, i + 1) + if es[i].leg.account == es[i + 1].leg.account then es[i].leg.amount else 0
  }

  // The table is a sequence of valid debit/credit pairs, and every currency nets to zero.
  ghost predicate LedgerInv(es: seq<Entry>) {
    && |es| % 2 == 0
    && (forall i :: 0 <= i < |es| && i % 2 == 0 ==> PairAt(es, i))
    && (forall c: Currency :: Total(NetOf(c), es) == 0)
  }

  // A pair reads only the entries up to itself.
  lemma PairStays(es: seq<Entry>, after: seq<Entry>, i: nat)
    requires i + 1 < |es| <= |after| && after[..|es|] == es
    requires PairAt(es, i)
    ensures PairAt(after, i)
  {
    assert after[..i + 1] == es[..i + 1] && after[..i + 2] == es[..i + 2];
    assert after[i] == es[i] && after[i + 1] == es[i + 1];
  }

  lemma NewPair(es: seq<Entry>, p: Posting)
    requires ValidPosting(p)
    ensures |Post(es, p)| == |es| + 2 && PairAt(Post(es, p), |es|)
  {
    var after, n := Post(es, p), |es|;
    assert after[..n + 1] == es + [after[n]];
    TotalAppend(BalanceOf(p.debit.account, p.debit.currency), es, after[n]);
    PostEffect(BalanceOf(p.credit.account, p.credit.currency), es, p);
    assert after[..n + 2] == after;
  }

  lemma PostKeepsLedger(es: seq<Entry>, p: Posting)
    requires LedgerInv(es) && ValidPosting(p)
    ensures LedgerInv(Post(es, p))
  {
    var after := Post(es, p);
    forall c: Currency
      ensures Total(NetOf(c), after) == 0
    {
      PostEffect(NetOf(c), es, p);
    }
    forall i | 0 <= i < |after| && i % 2 == 0
      ensures PairAt(after, i)
    {
      if i < |es| {
        assert PairAt(es, i);
        PairStays(es, after, i);
      } else {
        NewPair(es, p);
      }
    }
  }

  lemma {:induction false} PostAllKeepsLedger(es: seq<Entry>, ps: seq<Posting>)
    requires LedgerInv(es)
    requires forall p :: p in ps ==> ValidPosting(p)
    ensures LedgerInv(PostAll(es, ps))
  {
    if ps != [] {
      var n := |ps| - 1;
      PostAllKeepsLedger(es, ps[..n]);
      assert ps[n] in ps;
      PostKeepsLedger(PostAll(es, ps[..n]), ps[n]);
    }
  }

  // The audit snapshot of a credit entry is right exactly when its posting crosses accounts or
  // moves nothing.
  lemma SnapshotRightExactlyWhen(es: seq<Entry>, i: nat)
    requires LedgerInv(es) && i < |es|
    ensures i % 2 == 0 ==> SnapshotAt(es, i)
    ensures i % 2 == 1 ==>
              (SnapshotAt(es, i) <==> es[i - 1].leg.account != es[i].leg.account || es[i].leg.amount == 0)
  {
    if i % 2 == 1 {
      assert PairAt(es, i - 1);
    } else {
      assert PairAt(es, i);
    }
  }

  // Every audit snapshot is right unless it is a non-zero credit of a posting within one account.
  ghost predicate SnapshotsExact(es: seq<Entry>) {
    forall i :: 0 <= i < |es| ==>
      (SnapshotAt(es, i) <==> i % 2 == 0 || es[i - 1].leg.account != es[i].leg.account || es[i].leg.amount == 0)
  }

  lemma SnapshotsRightExactlyWhen(es: seq<Entry>)
    requires LedgerInv(es)
    ensures SnapshotsExact(es)
  {
    forall i | 0 <= i < |es|
      ensures SnapshotAt(es, i) <==> i % 2 == 0 || es[i - 1].leg.account != es[i].leg.account || es[i].leg.amount == 0
    {
      SnapshotRightExactlyWhen(es, i);
    }
  }

  // A share paid out of AVAILABLE to a party leaves a credit snapshot that is off by the share.
  lemma SamePairSnapshotIsOff()
    ensures var p := Posting(DebitLeg(AVAILABLE, 5, SPLIT, None, MAD), CreditLeg(AVAILABLE, 5, SPLIT, Some(1), MAD),
                             FromCaller(0, 0));
            var es := Post([], p);
            ValidPosting(p) && es[1].balanceAfter == 5 && Total(BalanceOf(AVAILABLE, MAD), es) == 0
  {
    var p := Posting(DebitLeg(AVAILABLE, 5, SPLIT, None, MAD), CreditLeg(AVAILABLE, 5, SPLIT, Some(1), MAD),
                     FromCaller(0, 0));
    PostEffect(BalanceOf(AVAILABLE, MAD), [], p);
  }

  lemma AmountsNonNegative(es: seq<Entry>, i: nat)
    requires LedgerInv(es) && i < |es|
    ensures 0 <= es[i].leg.amount
  {
    if i % 2 == 0 { assert PairAt(es, i); } else { assert PairAt(es, i - 1); }
  }

  lemma {:induction false} DebitTotalsNonNegative(es: seq<Entry>, c: Currency)
    requires forall i :: 0 <= i < |es| ==> 0 <= es[i].leg.amount
    ensures 0 <= Total(OtherDebitsOf(c), es) && 0 <= Total(PayoutDebitsOf(c), es)
  {
    if es != [] { DebitTotalsNonNegative(es[..|es| - 1], c); }
  }

  // AVAILABLE = credits - payout debits - all other debits.
  lemma {:induction false} AvailableDecomposes(es: seq<Entry>, c: Currency)
    ensures Total(BalanceOf(AVAILABLE, c), es)
            == Total(CreditsTo(AVAILABLE, c), es) - Total(PayoutDebitsOf(c), es) - Total(OtherDebitsOf(c), es)
  {
    if es != [] { AvailableDecomposes(es[..|es| - 1], c); }
  }

  lemma {:induction false} BalanceDecomposes(es: seq<Entry>, a: Account, c: Currency)
    ensures Total(BalanceOf(a, c), es) == Total(CreditsTo(a, c), es) - Total(DebitsOf(a, c), es)
  {
    if es != [] { BalanceDecomposes(es[..|es| - 1], a, c); }
  }
}
