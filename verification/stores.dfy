/** The three stores of the ledger (balances, allowances, total supply), their
    typed read/write helpers, and the balance debit/credit primitive. */
module Stores {
  import opened UInt256
  import opened Types

  /** The persisted ledger: a balance per address, an allowance per
      (owner, spender) pair, and the total-supply counter. An absent key reads as 0. */
  datatype LedgerState = LedgerState(
    balances: map<Address, U256>,
    allowances: map<(Address, Address), U256>,
    totalSupply: U256)

  /** What a state transition reports, together with the state it has written.
      On a failure this is the state as the operation left it, before any
      rollback by the host. */
  datatype Step = Step(result: Result, state: LedgerState)

  function ReadBalance(s: LedgerState, owner: Address): (r: U256)
    ensures owner in s.balances ==> r == s.balances[owner]
    ensures owner !in s.balances ==> r == 0
  {
    if owner in s.balances then s.balances[owner] else 0
  }

  function WriteBalance(s: LedgerState, owner: Address, amount: U256): (r: LedgerState)
    ensures ReadBalance(r, owner) == amount
    ensures forall a :: a != owner ==> ReadBalance(r, a) == ReadBalance(s, a)
    ensures r.allowances == s.allowances && r.totalSupply == s.totalSupply
  {
    s.(balances := s.balances[owner := amount])
  }

  function ReadAllowance(s: LedgerState, owner: Address, spender: Address): (r: U256)
    ensures (owner, spender) in s.allowances ==> r == s.allowances[(owner, spender)]
    ensures (owner, spender) !in s.allowances ==> r == 0
  {
    if (owner, spender) in s.allowances then s.allowances[(owner, spender)] else 0
  }

  function WriteAllowance(s: LedgerState, owner: Address, spender: Address, amount: U256): (r: LedgerState)
    ensures ReadAllowance(r, owner, spender) == amount
    ensures forall o, sp :: (o, sp) != (owner, spender) ==> ReadAllowance(r, o, sp) == ReadAllowance(s, o, sp)
    ensures r.balances == s.balances && r.totalSupply == s.totalSupply
  {
    s.(allowances := s.allowances[(owner, spender) := amount])
  }

  function WriteTotalSupply(s: LedgerState, amount: U256): (r: LedgerState)
    ensures r.totalSupply == amount
    ensures r.balances == s.balances && r.allowances == s.allowances
  {
    s.(totalSupply := amount)
  }

  /** Moves `amount` from `sender` to `recipient`. The sender is debited and that
      balance written first; the recipient's balance is read only afterwards, so a
      transfer to oneself nets to no change. A recipient overflow is detected after
      the debit has been written. */
  function TransferBalance(s: LedgerState, sender: Address, recipient: Address, amount: U256): (r: Step)
    ensures r.state.allowances == s.allowances && r.state.totalSupply == s.totalSupply
    ensures r.result != Err(InsufficientAllowance)
    ensures r.result == Err(InsufficientBalance) <==> ReadBalance(s, sender) < amount
    ensures r.result == Err(InsufficientBalance) ==> r.state == s
    ensures r.result == Err(Overflow) <==>
              amount <= ReadBalance(s, sender) && sender != recipient && ReadBalance(s, recipient) + amount > MAX
    ensures r.result == Err(Overflow) ==>
              ReadBalance(r.state, sender) + amount == ReadBalance(s, sender)
              && ReadBalance(r.state, recipient) == ReadBalance(s, recipient)
    ensures r.result.Ok? && sender != recipient ==>
              ReadBalance(r.state, sender) + amount == ReadBalance(s, sender)
              && ReadBalance(r.state, recipient) == ReadBalance(s, recipient) + amount
    ensures r.result.Ok? && sender == recipient ==> ReadBalance(r.state, sender) == ReadBalance(s, sender)
    ensures forall a :: a != sender && a != recipient ==> ReadBalance(r.state, a) == ReadBalance(s, a)
  {
    match CheckedSub(ReadBalance(s, sender), amount)
    case None => Step(Err(InsufficientBalance), s)
    case Some(senderBalance) =>
      var debited := WriteBalance(s, sender, senderBalance);
      match CheckedAdd(ReadBalance(debited, recipient), amount)
      case None => Step(Err(Overflow), debited)
      case Some(recipientBalance) => Step(Ok, WriteBalance(debited, recipient, recipientBalance))
  }
}
