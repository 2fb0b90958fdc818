// Option and Result, the two shapes the source's `T | null` and thrown errors take here.
module Prelude {

  datatype Option<+T> = None | Some(value: T)

  datatype Result<+T, +E> = Ok(value: T) | Err(error: E)

  // The position of the last element that satisfies `p`.
  function FindLast<T>(s: seq<T>, p: T -> bool): (r: Option<nat>)
    ensures r.Some? ==> r.value < |s| && p(s[r.value])
    ensures r.None? ==> forall i :: 0 <= i < |s| ==> !p(s[i])
  {
    if s == [] then None
    else if p(s[|s| - 1]) then Some(|s| - 1)
    else FindLast(s[..|s| - 1], p)
  }

  // Every error the modelled code throws, by the condition that raises it.
  datatype Error =
    | LegDirection
    | MixedCurrencies
    | UnequalLegs
    | NegativeAmount
    | SameAccountAndParty
    | NegativeRate
    | InvalidShares
    | SameCurrency
    | NoEligibleFunds
    | PayoutNotFound
    | IllegalTransition
    | PayoutExceedsFunds
    | WalletNotFound
    | WalletNotActive
    | InvalidWalletAmount
    | InsufficientWalletBalance
    | FeeExceedsTopUp
    | SplitNotFound
    | RefundAfterPayout
    | DisputeNotFound
    | NegativeBalance
    | InvalidPeriod
}
