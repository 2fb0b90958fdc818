// The read views over a list of legs: per-account and per-currency balance maps, the balance check
// and the incremental `applyPosting`. Each loop is proved against `NetLegs`, the signed sum of the
// legs of one account and currency, and `NetLegs` is tied to the sums over the entry table.
module LedgerViews {
  import opened Money
  import opened Ledger

  type Balances = map<Account, int>

  predicate AllAccounts(balances: Balances) {
    forall a: Account :: a in balances
  }

  function ZeroBalances(): Balances {
    map[CASH := 0, PENDING := 0, COLLECTED := 0, AVAILABLE := 0, RESERVE := 0,
        FEES := 0, PAID_OUT := 0, WALLET := 0, TAX_PAYABLE := 0]
  }

  lemma ZeroIsComplete()
    ensures AllAccounts(ZeroBalances()) && forall a: Account :: ZeroBalances()[a] == 0
  {
    forall a: Account
      ensures a in ZeroBalances() && ZeroBalances()[a] == 0
    {
      match a { case CASH => case PENDING => case COLLECTED => case AVAILABLE => case RESERVE =>
                case FEES => case PAID_OUT => case WALLET => case TAX_PAYABLE => }
    }
  }

  predicate AllCurrencies(balances: map<Currency, Balances>) {
    forall c: Currency :: c in balances && AllAccounts(balances[c])
  }

  function LegsOf(es: seq<Entry>): (legs: seq<Leg>)
    ensures |legs| == |es| && forall i :: 0 <= i < |es| ==> legs[i] == es[i].leg
  {
    if es == [] then [] else LegsOf(es[..|es| - 1]) + [es[|es| - 1].leg]
  }

  function LegsOfPostings(ps: seq<Posting>): seq<Leg> {
    if ps == [] then [] else LegsOfPostings(ps[..|ps| - 1]) + [ps[|ps| - 1].debit, ps[|ps| - 1].credit]
  }

  // What one leg adds to the balance of an account in a currency.
  function LegIn(leg: Leg, account: Account, currency: Currency): int {
    if leg.account == account && leg.currency == currency then Delta(leg) else 0
  }

  function NetLegs(legs: seq<Leg>, account: Account, currency: Currency): int {
    if legs == [] then 0
    else
      var leg := legs[|legs| - 1];
      NetLegs(legs[..|legs| - 1], account, currency) + LegIn(leg, account, currency)
  }

  function NetOfCurrency(legs: seq<Leg>, currency: Currency): int {
    if legs == [] then 0
    else
      var leg := legs[|legs| - 1];
      NetOfCurrency(legs[..|legs| - 1], currency) + if leg.currency == currency then Delta(leg) else 0
  }

  lemma NetLegsAppend(legs: seq<Leg>, leg: Leg, account: Account, currency: Currency)
    ensures NetLegs(legs + [leg], account, currency) == NetLegs(legs, account, currency) + LegIn(leg, account, currency)
  {
    assert (legs + [leg])[..|legs|] == legs;
  }

  lemma {:induction false} ViewsAgreeWithTable(es: seq<Entry>, account: Account, currency: Currency)
    ensures NetLegs(LegsOf(es), account, currency) == Total(BalanceOf(account, currency), es)
    ensures NetOfCurrency(LegsOf(es), currency) == Total(NetOf(currency), es)
  {
    if es != [] {
      ViewsAgreeWithTable(es[..|es| - 1], account, currency);
      assert LegsOf(es)[..|es| - 1] == LegsOf(es[..|es| - 1]);
    }
  }

  method ComputeBalances(legs: seq<Leg>, currency: Currency) returns (balances: Balances)
    ensures AllAccounts(balances)
    ensures forall a: Account :: balances[a] == NetLegs(legs, a, currency)
  {
    ZeroIsComplete();
    balances := ZeroBalances();
    for i := 0 to |legs|
      invariant AllAccounts(balances)
      invariant forall a: Account :: balances[a] == NetLegs(legs[..i], a, currency)
    {
      assert legs[..i + 1][..i] == legs[..i];
      var leg := legs[i];
      if leg.currency == currency {
        balances := balances[leg.account := balances[leg.account] + Delta(leg)];
      }
    }
    assert legs[..|legs|] == legs;
  }

  method ComputeBalancesByCurrency(legs: seq<Leg>) returns (balances: map<Currency, Balances>)
    ensures AllCurrencies(balances)
    ensures forall c: Currency, a: Account :: balances[c][a] == NetLegs(legs, a, c)
  {
    balances := map[MAD := ZeroBalances(), USD := ZeroBalances(), EUR := ZeroBalances(),
                    GBP := ZeroBalances(), CAD := ZeroBalances()];
    ZeroIsComplete();
    forall c: Currency
      ensures c in balances && balances[c] == ZeroBalances()
    {
      match c { case MAD => case USD => case EUR => case GBP => case CAD => }
    }
    for i := 0 to |legs|
      invariant AllCurrencies(balances)
      invariant forall c: Currency, a: Account :: balances[c][a] == NetLegs(legs[..i], a, c)
    {
      assert legs[..i + 1][..i] == legs[..i];
      var leg := legs[i];
      var row := balances[leg.currency];
      balances := balances[leg.currency := row[leg.account := row[leg.account] + Delta(leg)]];
    }
    assert legs[..|legs|] == legs;
  }

  method BalanceOfAccount(legs: seq<Leg>, account: Account, currency: Currency) returns (balance: int)
    ensures balance == NetLegs(legs, account, currency)
  {
    balance := 0;
    for i := 0 to |legs|
      invariant balance == NetLegs(legs[..i], account, currency)
    {
      assert legs[..i + 1][..i] == legs[..i];
      if legs[i].account == account && legs[i].currency == currency {
        balance := balance + Delta(legs[i]);
      }
    }
    assert legs[..|legs|] == legs;
  }

  // The map holds only the currencies seen, as the source's does; an absent currency nets to zero.
  method IsBalanced(legs: seq<Leg>) returns (balanced: bool)
    ensures balanced <==> forall c: Currency :: NetOfCurrency(legs, c) == 0
  {
    var nets: map<Currency, int> := map[];
    for i := 0 to |legs|
      invariant forall c: Currency :: NetOfCurrency(legs[..i], c) == if c in nets then nets[c] else 0
    {
      assert legs[..i + 1][..i] == legs[..i];
      var leg := legs[i];
      nets := nets[leg.currency := (if leg.currency in nets then nets[leg.currency] else 0) + Delta(leg)];
    }
    assert legs[..|legs|] == legs;
    var rest := nets.Keys;
    while rest != {}
      invariant rest <= nets.Keys
      invariant forall c :: c in nets && c !in rest ==> nets[c] == 0
      decreases |rest|
    {
      var c :| c in rest;
      if nets[c] != 0 {
        assert NetOfCurrency(legs, c) != 0;
        return false;
      }
      rest := rest - {c};
    }
    balanced := true;
  }

  function ApplyPosting(balances: Balances, p: Posting): (next: Balances)
    requires AllAccounts(balances)
    ensures AllAccounts(next)
  {
    var afterDebit := balances[p.debit.account := balances[p.debit.account] + Delta(p.debit)];
    afterDebit[p.credit.account := afterDebit[p.credit.account] + Delta(p.credit)]
  }

  function FoldPostings(ps: seq<Posting>): (balances: Balances)
    ensures AllAccounts(balances)
  {
    ZeroIsComplete();
    if ps == [] then ZeroBalances() else ApplyPosting(FoldPostings(ps[..|ps| - 1]), ps[|ps| - 1])
  }

  // The legs of the account in every currency but one.
  function NetForeignLegs(legs: seq<Leg>, account: Account, currency: Currency): int {
    if legs == [] then 0
    else
      var leg := legs[|legs| - 1];
      NetForeignLegs(legs[..|legs| - 1], account, currency)
      + if leg.account == account && leg.currency != currency then Delta(leg) else 0
  }

  lemma NetForeignAppend(legs: seq<Leg>, leg: Leg, account: Account, currency: Currency)
    ensures NetForeignLegs(legs + [leg], account, currency)
            == NetForeignLegs(legs, account, currency)
               + if leg.account == account && leg.currency != currency then Delta(leg) else 0
  {
    assert (legs + [leg])[..|legs|] == legs;
  }

  // `applyPosting` never looks at a leg's currency: what the fold holds is the balance in any one
  // currency plus everything the other currencies put on the account.
  lemma {:induction false} FoldIsNetPlusForeign(ps: seq<Posting>, a: Account, c: Currency)
    ensures FoldPostings(ps)[a] == NetLegs(LegsOfPostings(ps), a, c) + NetForeignLegs(LegsOfPostings(ps), a, c)
  {
    ZeroIsComplete();
    if ps != [] {
      var p, legs := ps[|ps| - 1], LegsOfPostings(ps[..|ps| - 1]);
      FoldIsNetPlusForeign(ps[..|ps| - 1], a, c);
      assert LegsOfPostings(ps) == (legs + [p.debit]) + [p.credit];
      NetLegsAppend(legs, p.debit, a, c);
      NetLegsAppend(legs + [p.debit], p.credit, a, c);
      NetForeignAppend(legs, p.debit, a, c);
      NetForeignAppend(legs + [p.debit], p.credit, a, c);
    }
  }

  lemma {:induction false} NoForeignLegs(ps: seq<Posting>, a: Account, c: Currency)
    requires forall p :: p in ps ==> p.debit.currency == c && p.credit.currency == c
    ensures NetForeignLegs(LegsOfPostings(ps), a, c) == 0
  {
    if ps != [] {
      var p, legs := ps[|ps| - 1], LegsOfPostings(ps[..|ps| - 1]);
      assert p in ps;
      NoForeignLegs(ps[..|ps| - 1], a, c);
      assert LegsOfPostings(ps) == (legs + [p.debit]) + [p.credit];
      NetForeignAppend(legs, p.debit, a, c);
      NetForeignAppend(legs + [p.debit], p.credit, a, c);
    }
  }

  // On postings of one currency the incremental fold, the batch views and the entry table agree.
  lemma FoldAgreesWithViews(ps: seq<Posting>, c: Currency, a: Account)
    requires forall p :: p in ps ==> p.debit.currency == c && p.credit.currency == c
    ensures FoldPostings(ps)[a] == NetLegs(LegsOfPostings(ps), a, c)
    ensures FoldPostings(ps)[a] == Total(BalanceOf(a, c), PostAll([], ps))
  {
    FoldIsNetPlusForeign(ps, a, c);
    NoForeignLegs(ps, a, c);
    TableOfPostings(ps);
    ViewsAgreeWithTable(PostAll([], ps), a, c);
  }

  lemma {:induction false} TableOfPostings(ps: seq<Posting>)
    ensures LegsOf(PostAll([], ps)) == LegsOfPostings(ps)
  {
    if ps != [] {
      var n := |ps| - 1;
      TableOfPostings(ps[..n]);
      var before := PostAll([], ps[..n]);
      var after := PostAll([], ps);
      assert after[..|before|] == before;
      assert |LegsOf(after)| == |LegsOf(before)| + 2;
      assert LegsOf(after) == LegsOf(before) + [ps[n].debit, ps[n].credit];
    }
  }

  // With two currencies in the list the fold is no longer either currency's balance.
  lemma FoldMixesCurrencies()
    ensures var ps := [Move(CASH, COLLECTED, 3, CAPTURE, MAD, FromIntent(0)),
                       Move(CASH, COLLECTED, 4, CAPTURE, EUR, FromIntent(1))];
            FoldPostings(ps)[COLLECTED] == 7 && NetLegs(LegsOfPostings(ps), COLLECTED, MAD) == 3
  {
    var p, q := Move(CASH, COLLECTED, 3, CAPTURE, MAD, FromIntent(0)),
        Move(CASH, COLLECTED, 4, CAPTURE, EUR, FromIntent(1));
    var ps := [p, q];
    assert ps[..1] == [p] && [p][..0] == [];
    assert LegsOfPostings([p]) == [p.debit] + [p.credit];
    assert LegsOfPostings(ps) == ([p.debit] + [p.credit] + [q.debit]) + [q.credit];
    NetLegsAppend([], p.debit, COLLECTED, MAD);
    NetLegsAppend([p.debit], p.credit, COLLECTED, MAD);
    NetLegsAppend([p.debit] + [p.credit], q.debit, COLLECTED, MAD);
    NetLegsAppend([p.debit] + [p.credit] + [q.debit], q.credit, COLLECTED, MAD);
  }
}
