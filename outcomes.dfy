/** The assertion failures of the two ledgers, and the results that carry them.
    A failed assertion aborts the whole transaction, so an operation either
    succeeds with its value or fails with the first assertion that did not hold. */
module Outcomes {

  /** One constructor per failing assertion (the source's message in the comment). */
  datatype Error =
    | WrongWitnessForBalances        // 'Wrong witness for balances' (Token.mint)
    | WrongWitnessForBalancesA       // 'Wrong witness for balances A'
    | OnlyOwnerCanTransfer           // 'Only owner can transfer'
    | CannotTransferMoreThanYouHave  // "Can't transfer more then you have"
    | WrongWitnessForBalanceB        // 'Wrong witness for balanceB'
    | ElementNotFound                // `found.assertTrue()` in findElement
    | TooManyActions                 // more pending action lists than the reducer allows

  datatype Option<T> = None | Some(value: T)

  datatype Result<T> = Success(value: T) | Failure(error: Error)

  /** The outcome of a state-changing contract method. */
  datatype Outcome = Pass | Fail(error: Error)
}
