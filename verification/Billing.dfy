// Instalment amortisation over exact reals: what the monthly payment does to the loan.
module Billing {
  import opened Prelude
  import opened Money

  function Pow(b: real, n: nat): real {
    if n == 0 then 1.0 else b * Pow(b, n - 1)
  }

  function Ceil(x: real): (c: int)
    ensures x <= c as real < x + 1.0
  {
    -((-x).Floor)
  }

  // Math.round: floor(x + 1/2).
  function Round(x: real): (r: int)
    ensures x - 0.5 < r as real <= x + 0.5
  {
    (x + 0.5).Floor
  }

  function MonthlyRate(aprPct: real): real {
    aprPct / 100.0 / 12.0
  }

  // The amortised payment before rounding.
  function ExactPayment(principal: real, r: real, factor: real): real
    requires factor != 1.0
  {
    principal * (r * factor) / (factor - 1.0)
  }

  // Monthly payment in whole centimes. Zero interest rounds to nearest, interest rounds up.
  function InstallmentCentimes(principal: real, aprPct: real, n: int): Result<int, BillingError> {
    if n <= 0 then Err(NonPositiveTerm)
    else if principal <= 0.0 then Ok(0)
    else if aprPct == 0.0 then Ok(Round(principal / n as real * 100.0))
    else
      var r := MonthlyRate(aprPct);
      var factor := Pow(1.0 + r, n);
      if factor == 1.0 then Ok(Round(principal / n as real * 100.0))
      else Ok(Ceil(ExactPayment(principal, r, factor) * 100.0))
  }

  datatype BillingError = NonPositiveTerm

  // Interest over the whole term, in whole centimes.
  function TotalInterest(principal: real, aprPct: real, n: int): Result<int, BillingError> {
    if aprPct == 0.0 then Ok(0)
    else match InstallmentCentimes(principal, aprPct, n)
      case Err(e) => Err(e)
      case Ok(cents) => Ok(Round((cents as real / 100.0 * n as real - principal) * 100.0))
  }

  // What is owed after k payments: interest accrues on the balance, then the payment comes off.
  function Owed(principal: real, r: real, payment: real, k: nat): real {
    if k == 0 then principal else Owed(principal, r, payment, k - 1) * (1.0 + r) - payment
  }

  // ---------------------------------------------------------------------------
  // Powers of the growth factor
  // ---------------------------------------------------------------------------

  lemma {:induction false} PowAboveOne(r: real, n: nat)
    requires 0.0 < r
    ensures 1.0 <= Pow(1.0 + r, n)
    ensures 0 < n ==> 1.0 < Pow(1.0 + r, n)
  {
    if n > 0 {
      PowAboveOne(r, n - 1);
      GrowsBy(Pow(1.0 + r, n - 1), r);
    }
  }

  lemma GrowsBy(f: real, r: real)
    requires 0.0 < r && 1.0 <= f
    ensures f < (1.0 + r) * f
  {
    assert 0.0 < r * f;
  }

  // The growth over n months is at most n times the last month's interest.
  lemma {:induction false} GrowthAtMost(r: real, n: nat)
    requires 0.0 < r
    ensures Pow(1.0 + r, n) - 1.0 <= n as real * (r * Pow(1.0 + r, n))
  {
    if n > 0 {
      var f := Pow(1.0 + r, n - 1);
      GrowthAtMost(r, n - 1);
      PowAboveOne(r, n - 1);
      GrowsBy(f, r);
      GrowthStep(f, r, (n - 1) as real);
      assert (n - 1) as real + 1.0 == n as real;
    }
  }

  lemma GrowthStep(f: real, r: real, m: real)
    requires 0.0 < r && 1.0 <= f && 0.0 <= m && f - 1.0 <= m * (r * f)
    ensures (1.0 + r) * f - 1.0 <= (m + 1.0) * (r * ((1.0 + r) * f))
  {
    var g := (1.0 + r) * f;
    assert g == f + r * f;
    GrowsBy(f, r);
    Scale(r, f, g);
    assert r * f <= r * g;
    Scale(m, r * f, r * g);
    assert (m + 1.0) * (r * g) == m * (r * g) + r * g;
  }

  lemma StrictScale(k: real, a: real, b: real)
    requires 0.0 < k && a < b
    ensures k * a < k * b
  {
    assert 0.0 < k * (b - a);
  }

  lemma Cancel(k: real, a: real, b: real)
    requires 0.0 < k && k * a <= k * b
    ensures a <= b
  {
    if b < a { StrictScale(k, b, a); }
  }

  lemma Scale(k: real, a: real, b: real)
    requires 0.0 <= k && a <= b
    ensures k * a <= k * b
  {
  }

  // ---------------------------------------------------------------------------
  // Positive interest
  // ---------------------------------------------------------------------------

  // What one centime, or one unit, a month grows to over k months.
  function Annuity(r: real, k: nat): real {
    if k == 0 then 0.0 else Annuity(r, k - 1) * (1.0 + r) + 1.0
  }

  lemma {:induction false} AnnuityTimesRate(r: real, k: nat)
    ensures r * Annuity(r, k) == Pow(1.0 + r, k) - 1.0
  {
    if k > 0 {
      AnnuityTimesRate(r, k - 1);
      AnnuityStep(r, Annuity(r, k - 1), Pow(1.0 + r, k - 1));
    }
  }

  lemma AnnuityStep(r: real, a: real, f: real)
    requires r * a == f - 1.0
    ensures r * (a * (1.0 + r) + 1.0) == (1.0 + r) * f - 1.0
  {
    assert r * (a * (1.0 + r) + 1.0) == (r * a) * (1.0 + r) + r;
  }

  // The recurrence in closed form: the principal grows, the payments grow against it.
  lemma {:induction false} OwedClosedForm(principal: real, r: real, payment: real, k: nat)
    ensures Owed(principal, r, payment, k) == principal * Pow(1.0 + r, k) - payment * Annuity(r, k)
  {
    if k > 0 {
      OwedClosedForm(principal, r, payment, k - 1);
      ClosedFormStep(principal, r, payment, Pow(1.0 + r, k - 1), Annuity(r, k - 1));
    }
  }

  lemma ClosedFormStep(p: real, r: real, m: real, f: real, a: real)
    ensures (p * f - m * a) * (1.0 + r) - m == p * ((1.0 + r) * f) - m * (a * (1.0 + r) + 1.0)
  {
  }

  lemma RateIsPositive(aprPct: real)
    requires 0.0 < aprPct
    ensures 0.0 < MonthlyRate(aprPct)
  {
  }

  lemma ExactPaymentTimes(p: real, r: real, f: real)
    requires f != 1.0
    ensures ExactPayment(p, r, f) * (f - 1.0) == r * (p * f)
  {
    var top, d := p * (r * f), f - 1.0;
    assert top / d * d == top;
    assert p * (r * f) == r * (p * f);
  }

  // The exact payment, grown every month, is exactly the grown principal.
  lemma ExactPaymentCovers(p: real, r: real, n: nat)
    requires 0.0 < r && 0 < n
    ensures 1.0 < Pow(1.0 + r, n) && 0.0 < Annuity(r, n)
    ensures ExactPayment(p, r, Pow(1.0 + r, n)) * Annuity(r, n) == p * Pow(1.0 + r, n)
  {
    PowAboveOne(r, n);
    AnnuityTimesRate(r, n);
    ExactPaymentTimes(p, r, Pow(1.0 + r, n));
    CoversBy(r, ExactPayment(p, r, Pow(1.0 + r, n)), Annuity(r, n), p * Pow(1.0 + r, n), Pow(1.0 + r, n) - 1.0);
  }

  lemma CoversBy(r: real, exact: real, a: real, due: real, g: real)
    requires 0.0 < r && 0.0 < g && r * a == g && exact * g == r * due
    ensures 0.0 < a && exact * a == due
  {
    if a <= 0.0 { Scale(r, a, 0.0); }
    assert r * (exact * a) == exact * (r * a) == r * due;
    Cancel(r, exact * a, due);
    Cancel(r, due, exact * a);
  }

  // What any payment leaves over after n months is its excess over the exact payment, grown every
  // month; so it repays the loan exactly when it is at least the exact payment.
  lemma RepaysExactlyWhen(p: real, r: real, payment: real, n: nat)
    requires 0.0 < r && 0 < n
    ensures 1.0 < Pow(1.0 + r, n)
    ensures var exact := ExactPayment(p, r, Pow(1.0 + r, n));
            && -Owed(p, r, payment, n) == (payment - exact) * Annuity(r, n)
            && (Owed(p, r, payment, n) <= 0.0 <==> exact <= payment)
  {
    ExactPaymentCovers(p, r, n);
    OwedClosedForm(p, r, payment, n);
    Excess(payment, ExactPayment(p, r, Pow(1.0 + r, n)), Annuity(r, n), p * Pow(1.0 + r, n));
  }

  lemma Excess(payment: real, exact: real, a: real, due: real)
    requires 0.0 < a && exact * a == due
    ensures payment * a - due == (payment - exact) * a
    ensures 0.0 <= payment * a - due <==> exact <= payment
  {
    if exact <= payment { Scale(a, exact, payment); } else { StrictScale(a, payment, exact); }
  }

  // With interest, the instalment is the least payment in whole centimes that repays the loan within
  // the term.
  lemma LeastRepayingInstallment(principal: real, aprPct: real, n: int, cents: int)
    requires 0.0 < principal && 0.0 < aprPct && 0 < n
    ensures InstallmentCentimes(principal, aprPct, n).Ok?
    ensures Owed(principal, MonthlyRate(aprPct), cents as real / 100.0, n) <= 0.0
            <==> InstallmentCentimes(principal, aprPct, n).value <= cents
  {
    RateIsPositive(aprPct);
    var r := MonthlyRate(aprPct);
    RepaysExactlyWhen(principal, r, cents as real / 100.0, n);
    CeilIsLeast(ExactPayment(principal, r, Pow(1.0 + r, n)) * 100.0, cents);
  }

  lemma CeilIsLeast(x: real, c: int)
    ensures x <= c as real <==> Ceil(x) <= c
  {
  }

  // The instalments together overpay by less than one centime a month, grown at the loan's own rate.
  lemma OverpaymentBound(principal: real, aprPct: real, n: int)
    requires 0.0 < principal && 0.0 < aprPct && 0 < n
    ensures InstallmentCentimes(principal, aprPct, n).Ok?
    ensures var r := MonthlyRate(aprPct);
            0.0 <= -Owed(principal, r, InstallmentCentimes(principal, aprPct, n).value as real / 100.0, n)
                < 0.01 * Annuity(r, n)
  {
    RateIsPositive(aprPct);
    var r := MonthlyRate(aprPct);
    ExactPaymentCovers(principal, r, n);
    var exact := ExactPayment(principal, r, Pow(1.0 + r, n));
    CeilExcess(exact);
    var payment := Ceil(exact * 100.0) as real / 100.0;
    RepaysExactlyWhen(principal, r, payment, n);
    GrownExcess(Annuity(r, n), payment - exact, -Owed(principal, r, payment, n));
  }

  lemma GrownExcess(a: real, over: real, left: real)
    requires 0.0 < a && 0.0 <= over < 0.01 && left == over * a
    ensures 0.0 <= left < 0.01 * a
  {
    StrictScale(a, over, 0.01);
  }

  lemma CeilExcess(x: real)
    ensures 0.0 <= Ceil(x * 100.0) as real / 100.0 - x < 0.01
  {
  }

  // With interest the lender never collects less than the principal, and the interest is never
  // negative.
  lemma NeverShort(principal: real, aprPct: real, n: int)
    requires 0.0 < principal && 0.0 < aprPct && 0 < n
    ensures InstallmentCentimes(principal, aprPct, n).Ok?
    ensures principal * 100.0 <= (n * InstallmentCentimes(principal, aprPct, n).value) as real
    ensures TotalInterest(principal, aprPct, n).Ok? && 0 <= TotalInterest(principal, aprPct, n).value
  {
    RateIsPositive(aprPct);
    var r := MonthlyRate(aprPct);
    var f := Pow(1.0 + r, n);
    PowAboveOne(r, n);
    GrowthAtMost(r, n);
    var exact, cents := ExactPayment(principal, r, f), InstallmentCentimes(principal, aprPct, n).value;
    ExactPaymentTimes(principal, r, f);
    PaymentsCover(principal, exact, n as real, r * f, f - 1.0);
    Scale(n as real, exact * 100.0, cents as real);
    assert n as real * (exact * 100.0) == (n as real * exact) * 100.0;
    ProductCast(n, cents);
  }

  // The interest is what the instalments collect over the principal, to the nearest centime.
  lemma InterestIsTheExcess(principal: real, aprPct: real, n: int)
    requires aprPct != 0.0 && InstallmentCentimes(principal, aprPct, n).Ok?
    ensures TotalInterest(principal, aprPct, n).Ok?
    ensures var excess := (n * InstallmentCentimes(principal, aprPct, n).value) as real - principal * 100.0;
            excess - 0.5 < TotalInterest(principal, aprPct, n).value as real <= excess + 0.5
  {
    var cents := InstallmentCentimes(principal, aprPct, n).value;
    ProductCast(n, cents);
    ExcessInCentimes(cents as real, n as real, principal);
  }

  lemma ExcessInCentimes(cents: real, n: real, principal: real)
    ensures (cents / 100.0 * n - principal) * 100.0 == n * cents - principal * 100.0
  {
    assert cents / 100.0 * n * 100.0 == cents * n;
  }

  // On a principal in whole centimes it is exactly that.
  lemma InterestIsExact(p: int, aprPct: real, n: int)
    requires aprPct != 0.0 && InstallmentCentimes(p as real / 100.0, aprPct, n).Ok?
    ensures TotalInterest(p as real / 100.0, aprPct, n)
            == Ok(n * InstallmentCentimes(p as real / 100.0, aprPct, n).value - p)
  {
    InterestIsTheExcess(p as real / 100.0, aprPct, n);
    var total := n * InstallmentCentimes(p as real / 100.0, aprPct, n).value;
    assert p as real / 100.0 * 100.0 == p as real;
    WholeWithinHalf(TotalInterest(p as real / 100.0, aprPct, n).value, total - p);
  }

  lemma WholeWithinHalf(a: int, b: int)
    requires b as real - 0.5 < a as real <= b as real + 0.5
    ensures a == b
  {
  }

  // At the edges: a term is needed for a payment, nothing is due on no principal, and a rate under which
  // nothing grows is treated as none.
  lemma InstallmentAtTheEdges(principal: real, aprPct: real, n: int)
    ensures InstallmentCentimes(principal, aprPct, n).Err? <==> n <= 0
    ensures 0 < n && principal <= 0.0 ==> InstallmentCentimes(principal, aprPct, n) == Ok(0)
    ensures 0 < n && Pow(1.0 + MonthlyRate(aprPct), n) == 1.0 ==>
              InstallmentCentimes(principal, aprPct, n) == InstallmentCentimes(principal, 0.0, n)
    ensures TotalInterest(principal, 0.0, n) == Ok(0)
  {
  }

  lemma ProductCast(a: int, b: int)
    ensures (a * b) as real == a as real * b as real
  {
  }

  lemma PaymentsCover(p: real, exact: real, n: real, rf: real, g: real)
    requires 0.0 < p && 0.0 < g && g <= n * rf && exact * g == p * rf
    ensures p <= n * exact
  {
    Scale(p, g, n * rf);
    assert p * (n * rf) == n * (p * rf) == n * (exact * g) == g * (n * exact);
    Cancel(g, p, n * exact);
  }

  // ---------------------------------------------------------------------------
  // No interest
  // ---------------------------------------------------------------------------

  // A principal in whole centimes is split to the nearest centime.
  lemma ZeroAprInstallment(p: nat, n: nat)
    requires 0 < p && 0 < n
    ensures var c := InstallmentCentimes(p as real / 100.0, 0.0, n);
            c.Ok? && c.value == RoundDiv(p, n)
  {
    var x := p as real / n as real;
    assert p as real / 100.0 / n as real * 100.0 == x;
    RoundTimes(p, n, x);
    NearestIs(p, n, Round(x));
  }

  lemma RoundTimes(p: nat, n: nat, x: real)
    requires 0 < n && x * n as real == p as real
    ensures 2 * p - n < 2 * (n * Round(x)) <= 2 * p + n
  {
    Between(n as real, x, Round(x) as real, p as real);
    ProductCast(n, Round(x));
    assert p as real - n as real / 2.0 < (n * Round(x)) as real <= p as real + n as real / 2.0;
  }

  lemma Between(m: real, x: real, c: real, p: real)
    requires 0.0 < m && x * m == p && x - 0.5 < c <= x + 0.5
    ensures p - m / 2.0 < m * c <= p + m / 2.0
  {
    BetweenBelow(m, x, c, p);
    BetweenAbove(m, x, c, p);
  }

  lemma BetweenBelow(m: real, x: real, c: real, p: real)
    requires 0.0 < m && x * m == p && x - 0.5 < c
    ensures p - m / 2.0 < m * c
  {
    var low := x - 0.5;
    StrictScale(m, low, c);
    assert m * low == x * m - m / 2.0;
  }

  lemma BetweenAbove(m: real, x: real, c: real, p: real)
    requires 0.0 < m && x * m == p && c <= x + 0.5
    ensures m * c <= p + m / 2.0
  {
    var high := x + 0.5;
    Scale(m, c, high);
    assert m * high == x * m + m / 2.0;
  }

  lemma NearestIs(p: nat, n: nat, c: int)
    requires 0 < n && 2 * p - n < 2 * (n * c) <= 2 * p + n
    ensures c == RoundDiv(p, n)
  {
    var d := RoundDiv(p, n);
    DoubleProduct(n, d);
    if c < d { NextMultiple(n, c, d); }
    if d < c { NextMultiple(n, d, c); }
  }

  lemma DoubleProduct(n: int, d: int)
    ensures 2 * n * d == 2 * (n * d)
  {
  }

  lemma NextMultiple(n: nat, c: int, d: int)
    requires c < d
    ensures n * c + n <= n * d
  {
    assert n * (d - c - 1) >= 0;
    assert n * (d - c - 1) == n * d - n * c - n;
  }

  // Without interest n instalments miss the principal by at most half a centime each, and reach it
  // exactly when the principal's remainder on the term is zero or at least half the term.
  lemma ZeroAprCollects(p: nat, n: nat)
    requires 0 < p && 0 < n
    ensures var c := InstallmentCentimes(p as real / 100.0, 0.0, n).value;
            && 2 * p - n <= 2 * (n * c) <= 2 * p + n
            && (p <= n * c <==> p % n == 0 || n <= 2 * (p % n))
  {
    ZeroAprInstallment(p, n);
    var q, rem, c := p / n, p % n, RoundDiv(p, n);
    DoubleProduct(n, c);
    assert p == n * q + rem;
    if rem == 0 || 2 * rem < n {
      NearestIs(p, n, q);
    } else {
      assert n * (q + 1) == n * q + n;
      NearestIs(p, n, q + 1);
    }
  }

  // 100.00 over three months collects 99.99.
  lemma ZeroAprCanFallShort()
    ensures 3 * InstallmentCentimes(100.0, 0.0, 3).value == 9999
  {
    ZeroAprInstallment(10000, 3);
  }
}
