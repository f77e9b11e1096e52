/** Sequences of ledger calls, as the host serialises them, starting from an
    installed ledger. Each call sees the state the previous one wrote. */
module Execution {
  import opened UInt256
  import opened Types
  import opened Stores
  import opened Erc20
  import opened Erc20Properties

  /** One state-changing call into the ledger, with its resolved caller. */
  datatype Call =
    | TransferCall(caller: Address, recipient: Address, amount: U256)
    | TransferFromCall(caller: Address, owner: Address, recipient: Address, amount: U256)
    | ApproveCall(caller: Address, spender: Address, amount: U256)
    | MintCall(owner: Address, amount: U256)
    | BurnCall(owner: Address, amount: U256)

  function Apply(s: LedgerState, c: Call): (r: Step)
    ensures r.result.Err? && !c.TransferCall? && !c.TransferFromCall? ==> r.state == s
  {
    match c
    case TransferCall(caller, recipient, amount) => Transfer(s, caller, recipient, amount)
    case TransferFromCall(caller, owner, recipient, amount) => TransferFrom(s, caller, owner, recipient, amount)
    case ApproveCall(caller, spender, amount) => Approve(s, caller, spender, amount)
    case MintCall(owner, amount) => Mint(s, owner, amount)
    case BurnCall(owner, amount) => Burn(s, owner, amount)
  }

  function Run(s: LedgerState, calls: seq<Call>): LedgerState
    decreases |calls|
  {
    if |calls| == 0 then s else Run(Apply(s, calls[0]).state, calls[1..])
  }

  /** Every call, succeeding or failing, keeps the supply equal to the sum of the
      balances, and a failing call leaves the ledger exactly as it was. */
  lemma ApplyPreservesSupply(s: LedgerState, c: Call)
    requires SupplyMatches(s)
    ensures SupplyMatches(Apply(s, c).state)
    ensures Apply(s, c).result.Err? ==> Apply(s, c).state == s
  {
    match c
    case TransferCall(caller, recipient, amount) =>
      TransferPreservesSupply(s, caller, recipient, amount);
    case TransferFromCall(caller, owner, recipient, amount) =>
      TransferFromPreservesSupply(s, caller, owner, recipient, amount);
    case ApproveCall(caller, spender, amount) =>
    case MintCall(owner, amount) =>
      MintPreservesSupply(s, owner, amount);
    case BurnCall(owner, amount) =>
      BurnPreservesSupply(s, owner, amount);
  }

  lemma {:induction false} RunPreservesSupply(s: LedgerState, calls: seq<Call>)
    requires SupplyMatches(s)
    ensures SupplyMatches(Run(s, calls))
    decreases |calls|
  {
    if |calls| > 0 {
      ApplyPreservesSupply(s, calls[0]);
      RunPreservesSupply(Apply(s, calls[0]).state, calls[1..]);
    }
  }

  /** In every state reachable from installation the supply equals the sum of all balances. */
  lemma ReachableStatesMatchSupply(deployer: Address, initialSupply: U256, calls: seq<Call>)
    ensures SupplyMatches(Run(Install(deployer, initialSupply), calls))
  {
    InstallMatchesSupply(deployer, initialSupply);
    RunPreservesSupply(Install(deployer, initialSupply), calls);
  }
}
