/** Identifiers, optional values, error kinds and the result of one ledger step. */
module Base {

  /** Row identifiers. The exchange uses UUIDs; only equality matters here. */
  type UserId = nat
  type CurrencyId = nat
  type OrderId = nat
  type DepositId = nat
  type WithdrawalId = nat
  type TransferId = nat

  /** A wallet is identified by its owner and its currency. */
  datatype WalletKey = WalletKey(user: UserId, currency: CurrencyId)

  datatype Option<T> = None | Some(value: T)

  /** The rejection kinds of the order and wallet controllers. */
  datatype Error =
    | NotFound             // user, recipient, order, deposit or withdrawal missing
    | Unauthorized         // the user may not trade (KYC or inactive account)
    | Forbidden            // cancelling another user's order
    | InvalidCurrency      // currency missing (orders) or missing or inactive (wallet operations)
    | InsufficientBalance  // available or total balance below the amount
    | InvalidState         // order, deposit or withdrawal no longer pending
    | SelfTransfer         // sender and recipient are the same user

  /** Outcome of one atomic step: the new state, or an error and no change. */
  datatype Result<T> = Ok(value: T) | Err(error: Error) {

    predicate IsFailure() {
      Err?
    }

    function PropagateFailure<U>(): Result<U>
      requires Err?
    {
      Err(error)
    }

    function Extract(): T
      requires Ok?
    {
      value
    }
  }

  function Min(a: real, b: real): real {
    if a <= b then a else b
  }

  function Max(a: real, b: real): real {
    if a >= b then a else b
  }
}
