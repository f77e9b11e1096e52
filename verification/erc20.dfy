/** The token ledger operations: queries and the transfer, delegated-transfer,
    approval, mint and burn transitions. The identity of the immediate caller is
    an explicit parameter. */
module Erc20 {
  import opened UInt256
  import opened Types
  import opened Stores

  /** The ledger right after installation: the deployer holds the whole initial
      supply and no allowance has been granted. */
  function Install(deployer: Address, initialSupply: U256): (r: LedgerState)
    ensures ReadBalance(r, deployer) == initialSupply
    ensures forall a :: a != deployer ==> ReadBalance(r, a) == 0
    ensures forall o, sp :: ReadAllowance(r, o, sp) == 0
    ensures r.totalSupply == initialSupply
  {
    LedgerState(map[deployer := initialSupply], map[], initialSupply)
  }

  function TotalSupply(s: LedgerState): (r: U256)
    ensures r == s.totalSupply
  {
    s.totalSupply
  }

  function BalanceOf(s: LedgerState, owner: Address): (r: U256)
    ensures owner in s.balances ==> r == s.balances[owner]
    ensures owner !in s.balances ==> r == 0
  {
    ReadBalance(s, owner)
  }

  function Allowance(s: LedgerState, owner: Address, spender: Address): (r: U256)
    ensures (owner, spender) in s.allowances ==> r == s.allowances[(owner, spender)]
    ensures (owner, spender) !in s.allowances ==> r == 0
  {
    ReadAllowance(s, owner, spender)
  }

  /** The caller moves `amount` of its own tokens to `recipient`. */
  function Transfer(s: LedgerState, caller: Address, recipient: Address, amount: U256): (r: Step)
    ensures r == TransferBalance(s, caller, recipient, amount)
    ensures r.result.Ok? <==> amount <= ReadBalance(s, caller)
                               && (caller == recipient || ReadBalance(s, recipient) + amount <= MAX)
  {
    TransferBalance(s, caller, recipient, amount)
  }

  /** The caller, as spender, moves `amount` from `owner` to `recipient` and spends
      that much of the allowance `owner` granted it. A zero amount succeeds at once
      without looking at the allowance. */
  function TransferFrom(s: LedgerState, caller: Address, owner: Address, recipient: Address, amount: U256): (r: Step)
    ensures amount == 0 ==> r == Step(Ok, s)
    ensures r.result.Ok? <==>
              amount == 0
              || (amount <= ReadAllowance(s, owner, caller) && TransferBalance(s, owner, recipient, amount).result.Ok?)
    ensures r.result == Err(InsufficientAllowance) <==> 0 < amount && ReadAllowance(s, owner, caller) < amount
    ensures r.result == Err(InsufficientAllowance) ==> r.state == s
    ensures 0 < amount <= ReadAllowance(s, owner, caller) && TransferBalance(s, owner, recipient, amount).result.Err? ==>
              r == TransferBalance(s, owner, recipient, amount)
    ensures r.result.Ok? && 0 < amount ==>
              ReadAllowance(r.state, owner, caller) + amount == ReadAllowance(s, owner, caller)
              && r.state.balances == TransferBalance(s, owner, recipient, amount).state.balances
    ensures r.result.Err? ==> r.state.allowances == s.allowances
    ensures forall o, sp :: (o, sp) != (owner, caller) ==> ReadAllowance(r.state, o, sp) == ReadAllowance(s, o, sp)
    ensures r.state.totalSupply == s.totalSupply
  {
    if amount == 0 then Step(Ok, s)
    else
      match CheckedSub(ReadAllowance(s, owner, caller), amount)
      case None => Step(Err(InsufficientAllowance), s)
      case Some(newAllowance) =>
        var moved := TransferBalance(s, owner, recipient, amount);
        if moved.result.Err? then moved
        else Step(Ok, WriteAllowance(moved.state, owner, caller, newAllowance))
  }

  /** The caller allows `spender` to move up to `amount` of its tokens, replacing
      whatever it allowed before. */
  function Approve(s: LedgerState, caller: Address, spender: Address, amount: U256): (r: Step)
    ensures r.result == Ok
    ensures ReadAllowance(r.state, caller, spender) == amount
    ensures forall o, sp :: (o, sp) != (caller, spender) ==> ReadAllowance(r.state, o, sp) == ReadAllowance(s, o, sp)
    ensures r.state.balances == s.balances && r.state.totalSupply == s.totalSupply
  {
    Step(Ok, WriteAllowance(s, caller, spender, amount))
  }

  /** Creates `amount` new tokens held by `owner`. Both the new balance and the new
      supply are computed before either is written. */
  function Mint(s: LedgerState, owner: Address, amount: U256): (r: Step)
    ensures r.result.Err? <==> ReadBalance(s, owner) + amount > MAX || s.totalSupply + amount > MAX
    ensures r.result.Err? ==> r == Step(Err(Overflow), s)
    ensures r.result.Ok? ==>
              ReadBalance(r.state, owner) == ReadBalance(s, owner) + amount
              && r.state.totalSupply == s.totalSupply + amount
    ensures forall a :: a != owner ==> ReadBalance(r.state, a) == ReadBalance(s, a)
    ensures r.state.allowances == s.allowances
  {
    match CheckedAdd(ReadBalance(s, owner), amount)
    case None => Step(Err(Overflow), s)
    case Some(newBalance) =>
      match CheckedAdd(s.totalSupply, amount)
      case None => Step(Err(Overflow), s)
      case Some(newTotalSupply) =>
        Step(Ok, WriteTotalSupply(WriteBalance(s, owner, newBalance), newTotalSupply))
  }

  /** Destroys `amount` tokens held by `owner`. A supply counter that would go
      negative is reported as Overflow, not as an underflow kind. */
  function Burn(s: LedgerState, owner: Address, amount: U256): (r: Step)
    ensures r.result != Err(InsufficientAllowance)
    ensures r.result == Err(InsufficientBalance) <==> ReadBalance(s, owner) < amount
    ensures r.result == Err(Overflow) <==> amount <= ReadBalance(s, owner) && s.totalSupply < amount
    ensures r.result.Err? ==> r.state == s
    ensures r.result.Ok? ==>
              ReadBalance(r.state, owner) + amount == ReadBalance(s, owner)
              && r.state.totalSupply + amount == s.totalSupply
    ensures forall a :: a != owner ==> ReadBalance(r.state, a) == ReadBalance(s, a)
    ensures r.state.allowances == s.allowances
  {
    match CheckedSub(ReadBalance(s, owner), amount)
    case None => Step(Err(InsufficientBalance), s)
    case Some(newBalance) =>
      match CheckedSub(s.totalSupply, amount)
      case None => Step(Err(Overflow), s)
      case Some(newTotalSupply) =>
        Step(Ok, WriteTotalSupply(WriteBalance(s, owner, newBalance), newTotalSupply))
  }
}
