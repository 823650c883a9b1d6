/** The typed failures of the membership store. */
module Outcomes {
  datatype ErrorCode =
    | FactCapacity | AdapterCapacity | CommandCapacity | ReceiptCapacity | ReceiptExpired
    | CommandTimeInvalid | RequestConflict | AdapterUnauthorized | AdapterInvalid | CommandInvalid
    | EnrollmentInvalid | ReceiptNotFound | MembershipInvalid | MembershipConflict | MembershipCapacity
    | MembershipNotFound | MembershipRevoked | InviteLabelUnavailable | InviteCapacity
    | InviteUnavailable | EnrollmentUnavailable
    | ConstraintViolation  // a UNIQUE column or a trigger of the schema aborts the transaction
    | FactOrderViolation   // validateFactOrder refuses the append
    | PendingOverflow      // a snapshot holds more rows than the configured maximum
    | KeyUndecodable       // a stored device key is not a public key

  datatype Result<+T> = Ok(value: T) | Err(error: ErrorCode)
}
