/** Every way an instruction can fail, the program's own errors first. */
module Errors {

  datatype Error =
    // declared by the program
    | PrecompileProgramMismatch
    | PrecompileUnexpectedAccounts
    | PrecompileDataTooShort
    | PrecompileSignatureCountMismatch
    | PrecompileLayoutMismatch
    | PrecompileMessageSizeMismatch
    | WalletIdMismatch
    | KeyMismatch
    | NonceMismatch
    | AuthorizationExpired
    | PreimageMismatch
    | WebAuthnGuardianUnsupported
    | NoPendingRotation
    | NotAGuardian
    | RotationSlotTaken
    | InvalidNewKey
    | RotationTooEarly
    | RotationExpired
    | InsufficientVaultBalance
    // raised by the libraries it calls
    | ArithmeticOverflow
    | NoInstructionBefore
    | AccountNotInitialized
    | ConstraintClose
    | InsufficientFunds

  datatype Result<+T> = Ok(value: T) | Err(error: Error) {
    predicate IsFailure() { Err? }

    function PropagateFailure<U>(): Result<U>
      requires Err?
    {
      Err(error)
    }

    function Extract(): T
      requires Ok?
    {
      value
    }
  }

  function Require(condition: bool, error: Error): Result<()> {
    if condition then Ok(()) else Err(error)
  }
}
