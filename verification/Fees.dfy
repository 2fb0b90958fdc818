// Fee schedules, tax on the fee, the reserve hold-back and the capture settlement plan.
module Fees {
  import opened Prelude
  import opened Money

  type Method = nat

  datatype Tier = Tier(upTo: int, bps: int)

  datatype FeeSchedule =
    | Flat(flat: Option<int>)
    | Percentage(bps: Option<int>)
    | PerMethod(flats: map<Method, int>)
    | Tiered(tiers: seq<Tier>)

  datatype TaxSpec = TaxSpec(rateBps: int, exempt: bool)

  // Stored policies have passed `validatePolicy`, whose guards on these two columns are the `nat`s.
  datatype ReservePolicy = NoReserve | FixedReserve(cents: Option<nat>) | RollingReserve(bps: Option<nat>)

  datatype CapturePlan = CapturePlan(fee: int, tax: int, reserve: int, net: int)

  function OrZero(v: Option<int>): int {
    match v case Some(n) => n case None => 0
  }

  // The first tier whose bound covers the amount, else the last one.
  function TierFor(tiers: seq<Tier>, amount: int): (tier: Tier)
    requires tiers != []
    ensures tier in tiers
    ensures (exists t :: t in tiers && amount <= t.upTo) ==> amount <= tier.upTo
  {
    if amount <= tiers[0].upTo || |tiers| == 1 then tiers[0] else TierFor(tiers[1..], amount)
  }

  function ComputeFee(schedule: FeeSchedule, amount: int, meth: Option<Method>): (r: Result<int, Error>)
    ensures r.Ok? ==> 0 <= r.value && 0 <= amount
  {
    if amount < 0 then Err(NegativeAmount)
    else match schedule
      case Flat(flat) => if OrZero(flat) < 0 then Err(NegativeAmount) else Ok(OrZero(flat))
      case Percentage(bps) => ApplyBps(amount, OrZero(bps))
      case PerMethod(flats) =>
        var flat := if meth.Some? && meth.value in flats then flats[meth.value] else 0;
        if flat < 0 then Err(NegativeAmount) else Ok(flat)
      case Tiered(tiers) =>
        if tiers == [] then Ok(0) else ApplyBps(amount, TierFor(tiers, amount).bps)
  }

  function ComputeTax(fee: int, tax: Option<TaxSpec>): (r: Result<int, Error>)
    ensures r.Ok? && 0 <= fee ==> 0 <= r.value
  {
    if tax.None? || tax.value.exempt || tax.value.rateBps == 0 then Ok(0)
    else ApplyBps(fee, tax.value.rateBps)
  }

  function ComputeReserve(policy: ReservePolicy, gross: int): (r: Result<int, Error>)
    ensures r.Ok? <==> 0 <= gross
    ensures r.Ok? ==> 0 <= r.value
  {
    if gross < 0 then Err(NegativeAmount)
    else match policy
      case NoReserve => Ok(0)
      case FixedReserve(cents) => Ok(Min(if cents.Some? then cents.value else 0, gross))
      case RollingReserve(bps) => ApplyBps(gross, if bps.Some? then bps.value else 0)
  }

  // fee + tax + reserve + net is the gross; net may be negative.
  function PlanCapture(gross: int, schedule: FeeSchedule, policy: ReservePolicy, meth: Option<Method>,
                       tax: Option<TaxSpec>): (r: Result<CapturePlan, Error>)
    ensures r.Ok? ==>
              var plan := r.value;
              && 0 <= plan.fee && 0 <= plan.tax && 0 <= plan.reserve
              && plan.fee + plan.tax + plan.reserve + plan.net == gross
  {
    match ComputeFee(schedule, gross, meth)
    case Err(e) => Err(e)
    case Ok(fee) =>
      match ComputeTax(fee, tax)
      case Err(e) => Err(e)
      case Ok(taxed) =>
        match ComputeReserve(policy, gross)
        case Err(e) => Err(e)
        case Ok(reserve) => Ok(CapturePlan(fee, taxed, reserve, gross - fee - taxed - reserve))
  }

  // ---------------------------------------------------------------------------
  // What the charges are
  // ---------------------------------------------------------------------------

  // Tier i is the one for the amount: the first whose bound covers it, or the last.
  predicate IsTierFor(tiers: seq<Tier>, amount: int, i: nat) {
    && i < |tiers| && (forall j :: 0 <= j < i ==> tiers[j].upTo < amount)
    && (amount <= tiers[i].upTo || i == |tiers| - 1)
  }

  lemma {:induction false} TierIsFirst(tiers: seq<Tier>, amount: int) returns (i: nat)
    requires tiers != []
    ensures IsTierFor(tiers, amount, i) && TierFor(tiers, amount) == tiers[i]
  {
    if amount <= tiers[0].upTo || |tiers| == 1 {
      i := 0;
    } else {
      var k := TierIsFirst(tiers[1..], amount);
      i := k + 1;
    }
  }

  // The number a schedule charges by, if it has one: zero where nothing is configured.
  predicate IsFee(schedule: FeeSchedule, amount: int, meth: Option<Method>, fee: int) {
    match schedule
    case Flat(flat) => fee == if flat.Some? then flat.value else 0
    case Percentage(bps) => Nearest(fee, amount * if bps.Some? then bps.value else 0, 10000)
    case PerMethod(flats) => fee == if meth.Some? && meth.value in flats then flats[meth.value] else 0
    case Tiered(tiers) =>
      if tiers == [] then fee == 0
      else exists i: nat :: i < |tiers| && IsTierFor(tiers, amount, i) && Nearest(fee, amount * tiers[i].bps, 10000)
  }

  lemma FeeMeaning(schedule: FeeSchedule, amount: int, meth: Option<Method>)
    requires ComputeFee(schedule, amount, meth).Ok?
    ensures IsFee(schedule, amount, meth, ComputeFee(schedule, amount, meth).value)
  {
    if schedule.Tiered? && schedule.tiers != [] {
      var i := TierIsFirst(schedule.tiers, amount);
      assert Nearest(ComputeFee(schedule, amount, meth).value, amount * schedule.tiers[i].bps, 10000);
    }
  }

  // A fee can be computed exactly for a non-negative amount under a number that is not negative.
  lemma FeeIsPricedExactlyWhen(schedule: FeeSchedule, amount: int, meth: Option<Method>)
    ensures ComputeFee(schedule, amount, meth).Ok?
            <==> 0 <= amount && match schedule
                                case Flat(flat) => flat.Some? ==> 0 <= flat.value
                                case Percentage(bps) => bps.Some? ==> 0 <= bps.value
                                case PerMethod(flats) => meth.Some? && meth.value in flats ==> 0 <= flats[meth.value]
                                case Tiered(tiers) =>
                                  forall i :: 0 <= i < |tiers| && IsTierFor(tiers, amount, i) ==> 0 <= tiers[i].bps
    ensures ComputeFee(schedule, amount, meth).Err? ==>
              ComputeFee(schedule, amount, meth).error
              == if 0 <= amount && (schedule.Percentage? || schedule.Tiered?) then NegativeRate else NegativeAmount
  {
    if schedule.Tiered? && schedule.tiers != [] {
      var i := TierIsFirst(schedule.tiers, amount);
      forall k | 0 <= k < |schedule.tiers| && IsTierFor(schedule.tiers, amount, k)
        ensures k == i
      {
      }
    }
  }

  predicate IsTax(tax: Option<TaxSpec>, fee: int, taxed: int) {
    if tax.None? || tax.value.exempt then taxed == 0 else Nearest(taxed, fee * tax.value.rateBps, 10000)
  }

  predicate IsReserve(policy: ReservePolicy, gross: int, reserve: int) {
    match policy
    case NoReserve => reserve == 0
    case FixedReserve(cents) =>
      var held := if cents.Some? then cents.value else 0;
      reserve == if held <= gross then held else gross
    case RollingReserve(bps) => Nearest(reserve, gross * if bps.Some? then bps.value else 0, 10000)
  }

  // The fee and the reserve are priced on the gross, the tax on the fee, and the net is what is left.
  lemma PlanMeaning(gross: int, schedule: FeeSchedule, policy: ReservePolicy, meth: Option<Method>,
                    tax: Option<TaxSpec>)
    requires PlanCapture(gross, schedule, policy, meth, tax).Ok?
    ensures var plan := PlanCapture(gross, schedule, policy, meth, tax).value;
            && IsFee(schedule, gross, meth, plan.fee) && IsTax(tax, plan.fee, plan.tax)
            && IsReserve(policy, gross, plan.reserve) && plan.net == gross - plan.fee - plan.tax - plan.reserve
  {
    FeeMeaning(schedule, gross, meth);
  }

  // A capture is priced exactly when its fee is and the tax rate is not negative.
  lemma PlanIsPricedExactlyWhen(gross: int, schedule: FeeSchedule, policy: ReservePolicy, meth: Option<Method>,
                                tax: Option<TaxSpec>)
    ensures PlanCapture(gross, schedule, policy, meth, tax).Ok?
            <==> ComputeFee(schedule, gross, meth).Ok?
                 && (tax.Some? && !tax.value.exempt ==> 0 <= tax.value.rateBps)
  {
  }

  // A rounded basis-point charge never exceeds twice the exact one.
  lemma ChargeAtMostDouble(amount: int, bps: int)
    requires 0 <= amount && 0 <= bps
    ensures BPS * ApplyBps(amount, bps).value <= 2 * (amount * bps)
  {
    RoundDivAtMostDouble(amount * bps, BPS);
  }

  lemma TaxOnFeeBound(gross: int, f: int, t: int, fee: int, tax: int)
    requires 0 <= gross && 0 <= f && 0 <= t
    requires BPS * fee <= 2 * (gross * f)
    requires BPS * tax <= 2 * (fee * t)
    ensures BPS * BPS * tax <= 4 * (gross * f * t)
  {
    assert BPS * fee * t <= 2 * (gross * f) * t;
    assert BPS * (BPS * tax) <= 2 * (BPS * fee * t);
  }

  // With a percentage fee f, tax t on it and a rolling reserve r, as fractions of one, the net is
  // never negative while 2f + 4ft + 2r <= 1, whatever the gross and its three roundings.
  lemma NetNeverNegative(gross: int, f: nat, t: nat, r: nat, meth: Option<Method>)
    requires 0 <= gross
    requires 2 * f * BPS + 4 * f * t + 2 * r * BPS <= BPS * BPS
    ensures var plan := PlanCapture(gross, Percentage(Some(f)), RollingReserve(Some(r)), meth, Some(TaxSpec(t, false)));
            plan.Ok? && 0 <= plan.value.net
  {
    var plan := PlanCapture(gross, Percentage(Some(f)), RollingReserve(Some(r)), meth, Some(TaxSpec(t, false))).value;
    ChargeAtMostDouble(gross, f);
    ChargeAtMostDouble(plan.fee, t);
    ChargeAtMostDouble(gross, r);
    TaxOnFeeBound(gross, f, t, plan.fee, plan.tax);
    calc {
      BPS * BPS * (plan.fee + plan.tax + plan.reserve);
      == BPS * (BPS * plan.fee) + BPS * BPS * plan.tax + BPS * (BPS * plan.reserve);
      <= BPS * (2 * (gross * f)) + 4 * (gross * f * t) + BPS * (2 * (gross * r));
      == { Regroup(gross, f, t, r); }
         gross * (2 * f * BPS + 4 * f * t + 2 * r * BPS);
      <= { MulLe(gross, 2 * f * BPS + 4 * f * t + 2 * r * BPS, BPS * BPS); }
         gross * (BPS * BPS);
    }
  }

  lemma Regroup(g: int, f: int, t: int, r: int)
    ensures BPS * (2 * (g * f)) + 4 * (g * f * t) + BPS * (2 * (g * r))
            == g * (2 * f * BPS + 4 * f * t + 2 * r * BPS)
  {
    assert g * f * t == g * (f * t);
    assert g * (2 * f * BPS + 4 * f * t + 2 * r * BPS) == g * (2 * f * BPS) + g * (4 * f * t) + g * (2 * r * BPS);
    assert g * (4 * f * t) == 4 * (g * (f * t));
  }

  // Past the bound the roundings can outrun the gross: at f = 50 % and r = 50 %, where the exact
  // charges only just use it up, a capture of one centime nets minus one.
  lemma NetCanBeNegative()
    ensures var plan := PlanCapture(1, Percentage(Some(5000)), RollingReserve(Some(5000)), None, None);
            plan.Ok? && plan.value.net == -1
  {
  }
}
