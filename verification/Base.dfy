/** Shared vocabulary: addresses, optional values, and the outcome of a contract call. */
module Base {

  type Addr = string

  datatype Option<+T> = None | Some(value: T)

  /** Why a call fails. A failed call leaves no trace: the chain reverts it. */
  datatype Error =
    | NotFound
    | IndexOutOfRange
    | Overflow
    | DivideByZero
    | OracleFailure
    | PriceNotFound
    | InvalidParams
    | InvalidZeroAmount
    | SenderIsRecipient
    | MarketNotActive
    | DepositNotEnabled
    | BorrowNotEnabled
    | InvalidDepositAmount
    | InvalidWithdrawAmount
    | InvalidBorrowAmount
    | InvalidRepayAmount
    | InvalidLiquidateAmount
    | UserNoBalance
    | UserNoCollateral
    | UserNoCollateralBalance
    | UserHasCollateralizedDebt
    | ExistingUserPositionRequired
    | OperationExceedsAvailableLiquidity
    | InvalidHealthFactorAfterWithdraw
    | InvalidHealthFactorAfterDisablingCollateral
    | BorrowAmountExceedsGivenCollateral
    | BorrowAmountExceedsUncollateralizedLoanLimit
    | CannotRepayZeroDebt
    | CannotRepayUncollateralizedLoanOnBehalfOf
    | CannotLiquidateWhenPositiveUncollateralizedLoanLimit
    | CannotLiquidateWhenCollateralUnset
    | CannotLiquidateWhenNoCollateralBalance
    | CannotLiquidateWhenNoDebtBalance
    | CannotLiquidateHealthyPosition
    | CannotLiquidateWhenNotEnoughCollateral
    | CannotTransferTokenWhenInvalidHealthFactor
    | PriceSourceNotTwap
    | NoSnapshotWithinTolerance
    | ProposalNotActive
    | InvalidProposal
    | VoteVotingPeriodEnded
    | VoteUserAlreadyVoted
    | VoteNoVotingPower
    | EndProposalVotingPeriodNotEnded
    | ExecuteProposalNotPassed
    | ExecuteProposalDelayNotEnded
    | ExecuteProposalExpired
    | AllocationExists
    | DebtOutstanding

  datatype Result<+T> = Ok(value: T) | Err(error: Error) {

    predicate IsFailure() {
      Err?
    }

    function PropagateFailure<U>(): Result<U>
      requires Err?
    {
      Err(error)
    }

    function Extract(): T
      requires Ok?
    {
      value
    }
  }

  /** The outcome of a guard, which carries no value. */
  datatype Check = Pass | Fail(error: Error) {

    predicate IsFailure() {
      Fail?
    }

    function PropagateFailure<U>(): Result<U>
      requires Fail?
    {
      Err(error)
    }
  }

  function Need(condition: bool, error: Error): Check {
    if condition then Pass else Fail(error)
  }

  function Min(a: nat, b: nat): nat {
    if a <= b then a else b
  }
}
