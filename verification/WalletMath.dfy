// Stored-value arithmetic: every wallet operation as a signed movement on a balance.
module WalletMath {
  import opened Prelude
  import opened Fees

  // `gross` is what changes hands with the customer or tenant, `fee` the commission taken on it.
  datatype Movement = Movement(signed: int, balanceAfter: int, gross: int, fee: int)

  datatype CommissionBasis = OnUsage | OnLoad

  function Applied(balance: int, signed: int, gross: int, fee: int): Movement {
    Movement(signed, balance + signed, gross, fee)
  }

  function TopUp(balance: int, amount: int): Result<Movement, Error> {
    if amount <= 0 then Err(InvalidWalletAmount) else Ok(Applied(balance, amount, amount, 0))
  }

  // Load basis: the customer pays the gross, the wallet is credited with what the fee leaves.
  function TopUpWithFee(balance: int, gross: int, schedule: FeeSchedule): Result<Movement, Error> {
    if gross <= 0 then Err(InvalidWalletAmount)
    else match ComputeFee(schedule, gross, None)
      case Err(e) => Err(e)
      case Ok(fee) => if gross - fee <= 0 then Err(FeeExceedsTopUp) else Ok(Applied(balance, gross - fee, gross, fee))
  }

  function Debit(balance: int, amount: int): Result<Movement, Error> {
    if amount <= 0 then Err(InvalidWalletAmount)
    else if amount > balance then Err(InsufficientWalletBalance)
    else Ok(Applied(balance, -amount, amount, 0))
  }

  // Usage basis: the fee is priced before the amount is checked.
  function DebitWithFee(balance: int, amount: int, schedule: FeeSchedule,
                        meth: Option<Method>): Result<Movement, Error>
  {
    match ComputeFee(schedule, amount, meth)
    case Err(e) => Err(e)
    case Ok(fee) =>
      match Debit(balance, amount)
      case Err(e) => Err(e)
      case Ok(m) => Ok(m.(fee := fee))
  }

  function Refund(balance: int, amount: int): Result<Movement, Error> {
    if amount <= 0 then Err(InvalidWalletAmount) else Ok(Applied(balance, amount, amount, 0))
  }

  function Adjustment(balance: int, signed: int): Result<Movement, Error> {
    if balance + signed < 0 then Err(InsufficientWalletBalance)
    else Ok(Applied(balance, signed, if signed < 0 then -signed else signed, 0))
  }
}
