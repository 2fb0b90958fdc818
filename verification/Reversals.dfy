// Where a lost dispute's gross amount is clawed back from.
module Reversals {
  import opened Prelude
  import opened Money

  datatype DisputeStatus = Open | Won | Lost

  datatype FundingPolicy = NetFromAvailable | DebitReserve | InvoiceTenant | AllowNegative

  datatype Allocation = Allocation(fromAvailable: int, fromReserve: int, uncovered: int)

  predicate CanTransition(from: DisputeStatus, to: DisputeStatus) {
    from == Open && to != Open
  }

  function FundReversal(policy: FundingPolicy, gross: int, available: int, reserve: int): (r: Result<Allocation, Error>)
    ensures r.Ok? <==> 0 <= gross && 0 <= available && 0 <= reserve
    // The three legs are non-negative and add up to the gross.
    ensures r.Ok? ==>
              && r.value.fromAvailable + r.value.fromReserve + r.value.uncovered == gross
              && 0 <= r.value.fromAvailable && 0 <= r.value.fromReserve && 0 <= r.value.uncovered
    // RESERVE is never overdrawn, and AVAILABLE only under ALLOW_NEGATIVE and only by a larger gross.
    ensures r.Ok? ==> r.value.fromReserve <= reserve
    ensures r.Ok? ==> (r.value.fromAvailable > available <==> policy == AllowNegative && gross > available)
    // A receivable is left only by an invoice or when the accounts the policy may draw on are drained.
    ensures r.Ok? && r.value.uncovered > 0 ==>
              || policy == InvoiceTenant
              || (policy == NetFromAvailable && r.value.fromAvailable == available)
              || (policy == DebitReserve && r.value.fromAvailable == available && r.value.fromReserve == reserve)
  {
    if gross < 0 || available < 0 || reserve < 0 then Err(NegativeBalance)
    else match policy
      case NetFromAvailable =>
        var fromAvailable := Min(gross, available);
        Ok(Allocation(fromAvailable, 0, gross - fromAvailable))
      case DebitReserve =>
        var fromReserve := Min(gross, reserve);
        var remaining := gross - fromReserve;
        var fromAvailable := Min(remaining, available);
        Ok(Allocation(fromAvailable, fromReserve, remaining - fromAvailable))
      case InvoiceTenant => Ok(Allocation(0, 0, gross))
      case AllowNegative => Ok(Allocation(gross, 0, 0))
  }
}
