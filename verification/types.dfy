/** Identities and error kinds shared by every part of the ledger. */
module Types {

  /** An identity that can hold tokens: an end-user account or an installed contract
      package. Each variant carries the 32-byte hash that names it, kept here as a
      number because the ledger only ever compares addresses for equality. */
  datatype Address = Account(accountHash: nat) | Contract(packageHash: nat)

  /** The failure kinds the ledger operations can report. */
  datatype Error = InsufficientBalance | InsufficientAllowance | Overflow

  /** The outcome of a state transition: success carries no value. */
  datatype Result = Ok | Err(error: Error)
}
