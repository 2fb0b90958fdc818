// Converting a foreign AVAILABLE balance into the settlement currency, and the sweep of all of them.
//
// A rate is the eight-decimal quote the source fixes it to, as an integer in units of 1e-8.
module FxSettlement {
  import opened Prelude
  import opened Money
  import opened Ledger

  const RATE_UNIT: int := 100000000

  function ConvertMinor(amount: int, rate: int): int {
    RoundDiv(amount * rate, RATE_UNIT)
  }

  datatype FxPlan = FxPlan(amountTo: int, gainLoss: int, postings: seq<Posting>)

  // The third posting: what the treasury gains or loses between the reference and the locked rate.
  function GainLossPostings(gainLoss: int, to: Currency): seq<Posting> {
    if gainLoss > 0 then [Move(CASH, FEES, gainLoss, FX_ADJUSTMENT, to, FromFxAdjustment)]
    else if gainLoss < 0 then [Move(FEES, CASH, -gainLoss, FX_ADJUSTMENT, to, FromFxAdjustment)]
    else []
  }

  function PlanFxConversion(from: Currency, to: Currency, amount: int, locked: int, reference: int)
    : (r: Result<FxPlan, Error>)
    ensures r.Ok? <==> from != to && 0 <= amount && 0 <= ConvertMinor(amount, locked)
    ensures r.Err? ==> r.error == if from == to then SameCurrency else NegativeAmount
    ensures r.Ok? ==> forall p :: p in r.value.postings ==> ValidPosting(p)
  {
    if from == to then Err(SameCurrency)
    else
      var amountTo := ConvertMinor(amount, locked);
      var gainLoss := ConvertMinor(amount, reference) - amountTo;
      var drain := Move(AVAILABLE, CASH, amount, ADJUSTMENT, from, FromFxConversion);
      var fund := Move(CASH, AVAILABLE, amountTo, ADJUSTMENT, to, FromFxConversion);
      if !ValidPosting(drain) || !ValidPosting(fund) then Err(NegativeAmount)
      else Ok(FxPlan(amountTo, gainLoss, [drain, fund] + GainLossPostings(gainLoss, to)))
  }

  lemma EffectsOfOne(q: Query, p: Posting)
    ensures Effects(q, [p]) == Effect(q, p)
  {
    assert [p][..0] == [];
  }

  lemma EffectsOfTwo(q: Query, p1: Posting, p2: Posting)
    ensures Effects(q, [p1, p2]) == Effect(q, p1) + Effect(q, p2)
  {
    assert [p1, p2] == [p1] + [p2];
    EffectsConcat(q, [p1], [p2]);
    EffectsOfOne(q, p1);
    EffectsOfOne(q, p2);
  }

  lemma PlanEffects(q: Query, from: Currency, to: Currency, amount: int, locked: int, reference: int)
    requires PlanFxConversion(from, to, amount, locked, reference).Ok?
    ensures var plan := PlanFxConversion(from, to, amount, locked, reference).value;
            Effects(q, plan.postings)
            == Effect(q, Move(AVAILABLE, CASH, amount, ADJUSTMENT, from, FromFxConversion))
               + Effect(q, Move(CASH, AVAILABLE, plan.amountTo, ADJUSTMENT, to, FromFxConversion))
               + (if plan.gainLoss > 0
                  then Effect(q, Move(CASH, FEES, plan.gainLoss, FX_ADJUSTMENT, to, FromFxAdjustment))
                  else if plan.gainLoss < 0
                      then Effect(q, Move(FEES, CASH, -plan.gainLoss, FX_ADJUSTMENT, to, FromFxAdjustment))
                  else 0)
  {
    var plan := PlanFxConversion(from, to, amount, locked, reference).value;
    var drain := Move(AVAILABLE, CASH, amount, ADJUSTMENT, from, FromFxConversion);
    var fund := Move(CASH, AVAILABLE, plan.amountTo, ADJUSTMENT, to, FromFxConversion);
    EffectsConcat(q, [drain, fund], GainLossPostings(plan.gainLoss, to));
    EffectsOfTwo(q, drain, fund);
    if plan.gainLoss != 0 { EffectsOfOne(q, GainLossPostings(plan.gainLoss, to)[0]); }
  }

  // The tenant gets exactly the locked conversion, the pool of the settlement currency moves by
  // exactly the reference conversion, FEES book the difference, and no other account moves.
  lemma PlanMeaning(from: Currency, to: Currency, amount: int, locked: int, reference: int, a: Account, c: Currency)
    requires PlanFxConversion(from, to, amount, locked, reference).Ok?
    ensures var ps := PlanFxConversion(from, to, amount, locked, reference).value.postings;
            && Effects(NetOf(c), ps) == 0
            && Effects(BalanceOf(a, c), ps)
               == if c == from && a == AVAILABLE then -amount
                  else if c == from && a == CASH then amount
                  else if c == to && a == AVAILABLE then ConvertMinor(amount, locked)
                  else if c == to && a == CASH then -ConvertMinor(amount, reference)
                  else if c == to && a == FEES then ConvertMinor(amount, reference) - ConvertMinor(amount, locked)
                  else 0
  {
    PlanEffects(NetOf(c), from, to, amount, locked, reference);
    PlanMoves(from, to, amount, locked, reference, a, c);
  }

  lemma PlanMoves(from: Currency, to: Currency, amount: int, locked: int, reference: int, a: Account, c: Currency)
    requires PlanFxConversion(from, to, amount, locked, reference).Ok?
    ensures Effects(BalanceOf(a, c), PlanFxConversion(from, to, amount, locked, reference).value.postings)
            == if c == from && a == AVAILABLE then -amount
               else if c == from && a == CASH then amount
               else if c == to && a == AVAILABLE then ConvertMinor(amount, locked)
               else if c == to && a == CASH then -ConvertMinor(amount, reference)
               else if c == to && a == FEES then ConvertMinor(amount, reference) - ConvertMinor(amount, locked)
               else 0
  {
    PlanEffects(BalanceOf(a, c), from, to, amount, locked, reference);
  }

  // In amounts and rates: the tenant is credited the integer nearest to amount * locked / 10^8, and the
  // pool gives up the integer nearest to amount * reference / 10^8.
  lemma PlanConverts(from: Currency, to: Currency, amount: int, locked: int, reference: int)
    requires PlanFxConversion(from, to, amount, locked, reference).Ok?
    ensures var ps := PlanFxConversion(from, to, amount, locked, reference).value.postings;
            && Nearest(Effects(BalanceOf(AVAILABLE, to), ps), amount * locked, 100000000)
            && Nearest(-Effects(BalanceOf(CASH, to), ps), amount * reference, 100000000)
            && Effects(BalanceOf(AVAILABLE, from), ps) == -amount && Effects(BalanceOf(CASH, from), ps) == amount
  {
    PlanMoves(from, to, amount, locked, reference, AVAILABLE, to);
    PlanMoves(from, to, amount, locked, reference, CASH, to);
    PlanMoves(from, to, amount, locked, reference, AVAILABLE, from);
    PlanMoves(from, to, amount, locked, reference, CASH, from);
  }

  // ---------------------------------------------------------------------------
  // The sweep
  // ---------------------------------------------------------------------------

  datatype Rates = Rates(mad: nat, usd: nat, eur: nat, gbp: nat, cad: nat)

  function RateOf(rates: Rates, c: Currency): nat {
    match c
    case MAD => rates.mad
    case USD => rates.usd
    case EUR => rates.eur
    case GBP => rates.gbp
    case CAD => rates.cad
  }

  lemma ConversionNonNegative(amount: int, rate: int)
    requires 0 <= amount && 0 <= rate
    ensures 0 <= ConvertMinor(amount, rate)
  {
    assert 0 <= amount * rate;
  }

  // What the sweep posts for one currency, judged on the balance `b` it holds.
  function ConversionOf(c: Currency, to: Currency, b: int, rates: Rates): (ps: seq<Posting>)
    ensures forall p :: p in ps ==> ValidPosting(p)
  {
    if c == to || b <= 0 then []
    else
      ConversionNonNegative(b, RateOf(rates, c));
      PlanFxConversion(c, to, b, RateOf(rates, c), RateOf(rates, c)).value.postings
  }

  // The whole sweep as one batch, every amount read off the table before the sweep starts.
  function SweepPlan(es: seq<Entry>, to: Currency, rates: Rates, n: nat): (ps: seq<Posting>)
    requires n <= |SUPPORTED_CURRENCIES|
    ensures forall p :: p in ps ==> ValidPosting(p)
  {
    if n == 0 then []
    else
      var c := SUPPORTED_CURRENCIES[n - 1];
      SweepPlan(es, to, rates, n - 1) + ConversionOf(c, to, Total(BalanceOf(AVAILABLE, c), es), rates)
  }

  function Sweep(es: seq<Entry>, to: Currency, rates: Rates): seq<Entry> {
    PostAll(es, SweepPlan(es, to, rates, |SUPPORTED_CURRENCIES|))
  }

  lemma ConversionMeaning(c: Currency, to: Currency, b: int, rates: Rates, a: Account, x: Currency)
    ensures Effects(BalanceOf(a, x), ConversionOf(c, to, b, rates))
            == if c == to || b <= 0 then 0
               else if x == c && a == AVAILABLE then -b
               else if x == c && a == CASH then b
               else if x == to && a == AVAILABLE then ConvertMinor(b, RateOf(rates, c))
               else if x == to && a == CASH then -ConvertMinor(b, RateOf(rates, c))
               else 0
  {
    if c != to && b > 0 {
      ConversionNonNegative(b, RateOf(rates, c));
      PlanMeaning(c, to, b, RateOf(rates, c), RateOf(rates, c), a, x);
    }
  }

  // Position of a currency in the sweep's loop.
  function IndexOf(c: Currency): (i: nat)
    ensures i < |SUPPORTED_CURRENCIES| && SUPPORTED_CURRENCIES[i] == c
  {
    match c case MAD => 0 case USD => 1 case EUR => 2 case GBP => 3 case CAD => 4
  }

  // What the tenant's settlement balance gains: the sum of the conversions of the positive balances.
  function SweptInto(es: seq<Entry>, to: Currency, rates: Rates, n: nat): int
    requires n <= |SUPPORTED_CURRENCIES|
  {
    if n == 0 then 0
    else
      var c := SUPPORTED_CURRENCIES[n - 1];
      var b := Total(BalanceOf(AVAILABLE, c), es);
      SweptInto(es, to, rates, n - 1) + if c == to || b <= 0 then 0 else ConvertMinor(b, RateOf(rates, c))
  }

  // What the first n turns of the sweep add to each account in each currency: a positive foreign balance
  // goes to CASH, and its conversion comes out of CASH in the settlement currency.
  function SweepChange(es: seq<Entry>, to: Currency, rates: Rates, n: nat, a: Account, x: Currency): int
    requires n <= |SUPPORTED_CURRENCIES|
  {
    var drained := if x != to && IndexOf(x) < n then Max(0, Total(BalanceOf(AVAILABLE, x), es)) else 0;
    var gained := if x == to then SweptInto(es, to, rates, n) else 0;
    match a
    case AVAILABLE => gained - drained
    case CASH => drained - gained
    case _ => 0
  }

  lemma {:induction false} SweepEffects(es: seq<Entry>, to: Currency, rates: Rates, n: nat, a: Account, x: Currency)
    requires n <= |SUPPORTED_CURRENCIES|
    ensures Effects(BalanceOf(a, x), SweepPlan(es, to, rates, n)) == SweepChange(es, to, rates, n, a, x)
  {
    if n > 0 {
      var c := SUPPORTED_CURRENCIES[n - 1];
      var b := Total(BalanceOf(AVAILABLE, c), es);
      SweepEffects(es, to, rates, n - 1, a, x);
      EffectsConcat(BalanceOf(a, x), SweepPlan(es, to, rates, n - 1), ConversionOf(c, to, b, rates));
      ConversionMeaning(c, to, b, rates, a, x);
      IndexAt(n - 1);
    }
  }

  // The conversion read at a currency's turn is the one planned before the sweep started.
  lemma BalanceAtItsTurn(es: seq<Entry>, to: Currency, rates: Rates, n: nat)
    requires n < |SUPPORTED_CURRENCIES|
    ensures var c := SUPPORTED_CURRENCIES[n];
            c != to ==> Total(BalanceOf(AVAILABLE, c), PostAll(es, SweepPlan(es, to, rates, n)))
                        == Total(BalanceOf(AVAILABLE, c), es)
  {
    var c := SUPPORTED_CURRENCIES[n];
    if c != to {
      IndexAt(n);
      SweepEffects(es, to, rates, n, AVAILABLE, c);
      PostAllEffect(BalanceOf(AVAILABLE, c), es, SweepPlan(es, to, rates, n));
    }
  }

  lemma IndexAt(n: nat)
    requires n < |SUPPORTED_CURRENCIES|
    ensures IndexOf(SUPPORTED_CURRENCIES[n]) == n
  {
  }

  // One line of the sweep's summary.
  datatype Converted = Converted(from: Currency, amountFrom: int, amountTo: int)

  function ConvertedOf(c: Currency, to: Currency, b: int, rates: Rates): Option<Converted> {
    if c == to || b <= 0 then None else Some(Converted(c, b, ConvertMinor(b, RateOf(rates, c))))
  }

  // One turn of the loop, on the balance it reads, is one step of the plan.
  lemma SweepStep(es: seq<Entry>, to: Currency, rates: Rates, n: nat)
    requires n < |SUPPORTED_CURRENCIES|
    ensures var c, before := SUPPORTED_CURRENCIES[n], PostAll(es, SweepPlan(es, to, rates, n));
            var b := Total(BalanceOf(AVAILABLE, c), before);
            && PostAll(before, ConversionOf(c, to, b, rates)) == PostAll(es, SweepPlan(es, to, rates, n + 1))
            && ConvertedBy(es, to, rates, n + 1)
               == ConvertedBy(es, to, rates, n)
                  + if ConvertedOf(c, to, b, rates).Some? then [ConvertedOf(c, to, b, rates).value] else []
  {
    var c := SUPPORTED_CURRENCIES[n];
    BalanceAtItsTurn(es, to, rates, n);
    PostAllConcat(es, SweepPlan(es, to, rates, n), ConversionOf(c, to, Total(BalanceOf(AVAILABLE, c), es), rates));
  }

  // The summary of the whole sweep, one line per currency converted.
  function ConvertedBy(es: seq<Entry>, to: Currency, rates: Rates, n: nat): seq<Converted>
    requires n <= |SUPPORTED_CURRENCIES|
  {
    if n == 0 then []
    else
      var c := SUPPORTED_CURRENCIES[n - 1];
      var one := ConvertedOf(c, to, Total(BalanceOf(AVAILABLE, c), es), rates);
      ConvertedBy(es, to, rates, n - 1) + if one.Some? then [one.value] else []
  }

  // After a sweep every account in every currency is what it was but for the drained balances and their
  // conversions: every foreign AVAILABLE that was positive is exactly zero, the others are as they were,
  // the settlement balance has gained exactly the conversions, CASH mirrors both, and nothing else moves.
  lemma SweepMeaning(es: seq<Entry>, to: Currency, rates: Rates, a: Account, x: Currency)
    ensures Total(BalanceOf(a, x), Sweep(es, to, rates))
            == Total(BalanceOf(a, x), es) + SweepChange(es, to, rates, |SUPPORTED_CURRENCIES|, a, x)
    ensures x != to ==>
              Total(BalanceOf(AVAILABLE, x), Sweep(es, to, rates)) == Min(0, Total(BalanceOf(AVAILABLE, x), es))
  {
    var ps := SweepPlan(es, to, rates, |SUPPORTED_CURRENCIES|);
    PostAllEffect(BalanceOf(a, x), es, ps);
    PostAllEffect(BalanceOf(AVAILABLE, x), es, ps);
    SweepEffects(es, to, rates, |SUPPORTED_CURRENCIES|, a, x);
    SweepEffects(es, to, rates, |SUPPORTED_CURRENCIES|, AVAILABLE, x);
  }

  function ConvertedSum(lines: seq<Converted>): int {
    if lines == [] then 0 else ConvertedSum(lines[..|lines| - 1]) + lines[|lines| - 1].amountTo
  }

  // A whole positive foreign balance, with the integer nearest to its worth at its own rate.
  predicate IsConversion(line: Converted, es: seq<Entry>, to: Currency, rates: Rates) {
    && line.from != to && 0 < line.amountFrom == Total(BalanceOf(AVAILABLE, line.from), es)
    && exists i: nat :: i < 5 && SUPPORTED_CURRENCIES[i] == line.from
                        && Nearest(line.amountTo, line.amountFrom * RateAt(rates, i), 100000000)
  }

  // The rate of a currency, by its position in the table of rates.
  function RateAt(rates: Rates, i: nat): nat
    requires i < 5
  {
    [rates.mad, rates.usd, rates.eur, rates.gbp, rates.cad][i]
  }

  // Each line converts a balance of one of the first n currencies, and no two the same.
  ghost predicate AreConversions(lines: seq<Converted>, es: seq<Entry>, to: Currency, rates: Rates, n: nat) {
    && (forall k :: 0 <= k < |lines| ==> IsConversion(lines[k], es, to, rates) && IndexOf(lines[k].from) < n)
    && (forall j, k :: 0 <= j < k < |lines| ==> lines[j].from != lines[k].from)
  }

  // Every positive foreign balance among them is converted.
  ghost predicate ConvertsAll(lines: seq<Converted>, es: seq<Entry>, to: Currency, n: nat) {
    forall c: Currency :: c != to && Total(BalanceOf(AVAILABLE, c), es) > 0 && IndexOf(c) < n ==>
      exists k :: 0 <= k < |lines| && lines[k].from == c
  }

  // The sweep converts every positive foreign balance once, whole, to the integer nearest to its worth at
  // its own rate; the settlement balance gains their sum.
  lemma SweepConverts(es: seq<Entry>, to: Currency, rates: Rates)
    ensures var n := |SUPPORTED_CURRENCIES|;
            var lines := ConvertedBy(es, to, rates, n);
            && AreConversions(lines, es, to, rates, n) && ConvertsAll(lines, es, to, n)
            && Total(BalanceOf(AVAILABLE, to), Sweep(es, to, rates))
               == Total(BalanceOf(AVAILABLE, to), es) + ConvertedSum(lines)
  {
    LinesAreConversions(es, to, rates, |SUPPORTED_CURRENCIES|);
    LinesConvertAll(es, to, rates, |SUPPORTED_CURRENCIES|);
    SettlementGainsTheLines(es, to, rates);
  }

  lemma SettlementGainsTheLines(es: seq<Entry>, to: Currency, rates: Rates)
    ensures Total(BalanceOf(AVAILABLE, to), Sweep(es, to, rates))
            == Total(BalanceOf(AVAILABLE, to), es) + ConvertedSum(ConvertedBy(es, to, rates, |SUPPORTED_CURRENCIES|))
  {
    SweepMeaning(es, to, rates, AVAILABLE, to);
    LinesAddUp(es, to, rates, |SUPPORTED_CURRENCIES|);
  }

  lemma LinesSnoc(es: seq<Entry>, to: Currency, rates: Rates, n: nat)
    requires n < |SUPPORTED_CURRENCIES|
    ensures var c, before := SUPPORTED_CURRENCIES[n], ConvertedBy(es, to, rates, n);
            var b := Total(BalanceOf(AVAILABLE, c), es);
            ConvertedBy(es, to, rates, n + 1)
            == if c == to || b <= 0 then before else before + [Converted(c, b, ConvertMinor(b, RateOf(rates, c)))]
  {
    var before := ConvertedBy(es, to, rates, n);
    assert before + [] == before;
  }

  lemma {:induction false} LinesAddUp(es: seq<Entry>, to: Currency, rates: Rates, n: nat)
    requires n <= |SUPPORTED_CURRENCIES|
    ensures ConvertedSum(ConvertedBy(es, to, rates, n)) == SweptInto(es, to, rates, n)
  {
    if n > 0 {
      LinesAddUp(es, to, rates, n - 1);
      LineAddsUp(es, to, rates, n - 1);
    }
  }

  lemma LineAddsUp(es: seq<Entry>, to: Currency, rates: Rates, n: nat)
    requires n < |SUPPORTED_CURRENCIES|
    ensures ConvertedSum(ConvertedBy(es, to, rates, n + 1)) - ConvertedSum(ConvertedBy(es, to, rates, n))
            == SweptInto(es, to, rates, n + 1) - SweptInto(es, to, rates, n)
  {
    var c, before := SUPPORTED_CURRENCIES[n], ConvertedBy(es, to, rates, n);
    LinesSnoc(es, to, rates, n);
    if c != to && Total(BalanceOf(AVAILABLE, c), es) > 0 {
      ConvertedSumSnoc(before, ConvertedBy(es, to, rates, n + 1)[|before|]);
    }
  }

  lemma ConvertedSumSnoc(lines: seq<Converted>, line: Converted)
    ensures ConvertedSum(lines + [line]) == ConvertedSum(lines) + line.amountTo
  {
    assert (lines + [line])[..|lines|] == lines;
  }

  lemma {:induction false} LinesAreConversions(es: seq<Entry>, to: Currency, rates: Rates, n: nat)
    requires n <= |SUPPORTED_CURRENCIES|
    ensures AreConversions(ConvertedBy(es, to, rates, n), es, to, rates, n)
  {
    if n > 0 {
      var c := SUPPORTED_CURRENCIES[n - 1];
      LinesAreConversions(es, to, rates, n - 1);
      LinesSnoc(es, to, rates, n - 1);
      IndexAt(n - 1);
      if c != to && Total(BalanceOf(AVAILABLE, c), es) > 0 {
        LineIsConversion(es, to, rates, n - 1);
        OneMoreConversion(ConvertedBy(es, to, rates, n - 1), ConvertedBy(es, to, rates, n), es, to, rates, n - 1);
      }
    }
  }

  lemma OneMoreConversion(before: seq<Converted>, lines: seq<Converted>, es: seq<Entry>, to: Currency, rates: Rates,
                          n: nat)
    requires AreConversions(before, es, to, rates, n) && |lines| == |before| + 1 && lines[..|before|] == before
    requires IsConversion(lines[|before|], es, to, rates) && IndexOf(lines[|before|].from) == n
    ensures AreConversions(lines, es, to, rates, n + 1)
  {
    forall k | 0 <= k < |lines|
      ensures IsConversion(lines[k], es, to, rates) && IndexOf(lines[k].from) < n + 1
    {
      if k < |before| { assert lines[k] == before[k]; }
    }
    forall j, k | 0 <= j < k < |lines|
      ensures lines[j].from != lines[k].from
    {
      assert lines[j] == before[j];
      if k < |before| { assert lines[k] == before[k]; }
    }
  }

  lemma {:induction false} LinesConvertAll(es: seq<Entry>, to: Currency, rates: Rates, n: nat)
    requires n <= |SUPPORTED_CURRENCIES|
    ensures ConvertsAll(ConvertedBy(es, to, rates, n), es, to, n)
  {
    if n > 0 {
      LinesConvertAll(es, to, rates, n - 1);
      LinesSnoc(es, to, rates, n - 1);
      var before, lines := ConvertedBy(es, to, rates, n - 1), ConvertedBy(es, to, rates, n);
      forall c: Currency | c != to && Total(BalanceOf(AVAILABLE, c), es) > 0 && IndexOf(c) < n
        ensures exists k :: 0 <= k < |lines| && lines[k].from == c
      {
        if IndexOf(c) == n - 1 {
          assert lines[|before|].from == c;
        } else {
          var k :| 0 <= k < |before| && before[k].from == c;
          assert lines[k].from == c;
        }
      }
    }
  }

  lemma LineIsConversion(es: seq<Entry>, to: Currency, rates: Rates, i: nat)
    requires i < |SUPPORTED_CURRENCIES| && SUPPORTED_CURRENCIES[i] != to
    requires Total(BalanceOf(AVAILABLE, SUPPORTED_CURRENCIES[i]), es) > 0
    ensures var c := SUPPORTED_CURRENCIES[i];
            var b := Total(BalanceOf(AVAILABLE, c), es);
            IsConversion(Converted(c, b, ConvertMinor(b, RateOf(rates, c))), es, to, rates)
  {
    var c := SUPPORTED_CURRENCIES[i];
    assert RateOf(rates, c) == RateAt(rates, i);
    assert Nearest(ConvertMinor(Total(BalanceOf(AVAILABLE, c), es), RateOf(rates, c)),
                   Total(BalanceOf(AVAILABLE, c), es) * RateAt(rates, i), 100000000);
  }

  lemma {:induction false} NothingToSweep(es: seq<Entry>, to: Currency, rates: Rates, n: nat)
    requires n <= |SUPPORTED_CURRENCIES|
    requires forall c: Currency :: c != to ==> Total(BalanceOf(AVAILABLE, c), es) <= 0
    ensures SweepPlan(es, to, rates, n) == []
  {
    if n > 0 { NothingToSweep(es, to, rates, n - 1); }
  }

  // A second sweep posts nothing, whatever the rates have become.
  lemma SecondSweepPostsNothing(es: seq<Entry>, to: Currency, rates: Rates, later: Rates)
    ensures SweepPlan(Sweep(es, to, rates), to, later, |SUPPORTED_CURRENCIES|) == []
  {
    forall c: Currency | c != to
      ensures Total(BalanceOf(AVAILABLE, c), Sweep(es, to, rates)) <= 0
    {
      SweepMeaning(es, to, rates, AVAILABLE, c);
    }
    NothingToSweep(Sweep(es, to, rates), to, later, |SUPPORTED_CURRENCIES|);
  }
}
