/** The program's error codes, and one value for failures raised by the runtime around it. */
module Errors {
  datatype PhygitalError =
    | InvalidSlotHash
    | InvalidSysvarDataFormat
    | InvalidAccountData
    | InvalidAccountIndex
    | SelfReentrancyNotAllowed
    | PhygitalTokenCpiNotAllowed
    | WalletInvariantViolated
    | ProtectedAccountPrivilege
    | AuthorityMismatch
    | InvalidAuthority
    | AuthorityPayerMismatch
    | SpendLimitExceeded
    | InvalidPolicyArgs
    | UnsupportedPolicyVersion
    | ProgramNotAllowed
    | UnsupportedAuthorityVersion
    | InstructionNotAllowed
    | Runtime
}
