/** Properties of the ledger operations: the total supply always equals the sum of
    all balances, failures leave the ledger untouched, and the laws relating
    operations to one another. */
module Erc20Properties {
  import opened UInt256
  import opened Types
  import opened Stores
  import opened BalanceSum
  import opened Erc20

  /** The core invariant: the supply counter equals the sum of all balances. */
  ghost predicate SupplyMatches(s: LedgerState) {
    s.totalSupply == Sum(s.balances)
  }

  /** Two states in which every address reads the same balance. */
  ghost predicate SameBalances(s: LedgerState, t: LedgerState) {
    forall a :: ReadBalance(s, a) == ReadBalance(t, a)
  }

  lemma InstallMatchesSupply(deployer: Address, initialSupply: U256)
    ensures SupplyMatches(Install(deployer, initialSupply))
  {
  }

  /** A successful balance transfer moves value between entries without changing their sum. */
  lemma TransferBalanceConservesSum(s: LedgerState, sender: Address, recipient: Address, amount: U256)
    ensures TransferBalance(s, sender, recipient, amount).result.Ok? ==>
              Sum(TransferBalance(s, sender, recipient, amount).state.balances) == Sum(s.balances)
  {
    var r := TransferBalance(s, sender, recipient, amount);
    if r.result.Ok? {
      var debited := WriteBalance(s, sender, ReadBalance(s, sender) - amount);
      SumUpdate(s.balances, sender, ReadBalance(s, sender) - amount);
      SumUpdate(debited.balances, recipient, ReadBalance(debited, recipient) + amount);
      assert r.state == WriteBalance(debited, recipient, ReadBalance(debited, recipient) + amount);
    }
  }

  /** While the supply matches the balances, no balance can be high enough for a
      credit to overflow, so the partially written overflow path of a transfer never
      occurs. */
  lemma TransferCannotOverflow(s: LedgerState, sender: Address, recipient: Address, amount: U256)
    requires SupplyMatches(s)
    ensures TransferBalance(s, sender, recipient, amount).result != Err(Overflow)
  {
    if sender != recipient {
      SumBoundsPair(s.balances, sender, recipient);
    }
  }

  /** While the supply matches the balances, burning never reaches the supply
      underflow that is reported as Overflow. */
  lemma BurnCannotOverflow(s: LedgerState, owner: Address, amount: U256)
    requires SupplyMatches(s)
    ensures Burn(s, owner, amount).result != Err(Overflow)
  {
    SumBoundsEntry(s.balances, owner);
  }

  lemma TransferPreservesSupply(s: LedgerState, caller: Address, recipient: Address, amount: U256)
    requires SupplyMatches(s)
    ensures Transfer(s, caller, recipient, amount).result.Err? ==> Transfer(s, caller, recipient, amount).state == s
    ensures SupplyMatches(Transfer(s, caller, recipient, amount).state)
  {
    TransferCannotOverflow(s, caller, recipient, amount);
    TransferBalanceConservesSum(s, caller, recipient, amount);
  }

  lemma TransferFromPreservesSupply(s: LedgerState, caller: Address, owner: Address, recipient: Address, amount: U256)
    requires SupplyMatches(s)
    ensures TransferFrom(s, caller, owner, recipient, amount).result.Err? ==>
              TransferFrom(s, caller, owner, recipient, amount).state == s
    ensures SupplyMatches(TransferFrom(s, caller, owner, recipient, amount).state)
  {
    TransferCannotOverflow(s, owner, recipient, amount);
    TransferBalanceConservesSum(s, owner, recipient, amount);
  }

  /** Minting adds the same amount to the balances' sum as to the supply counter. */
  lemma MintPreservesSupply(s: LedgerState, owner: Address, amount: U256)
    ensures Mint(s, owner, amount).result.Ok? ==> Sum(Mint(s, owner, amount).state.balances) == Sum(s.balances) + amount
    ensures SupplyMatches(s) ==> SupplyMatches(Mint(s, owner, amount).state)
  {
    var r := Mint(s, owner, amount);
    if r.result.Ok? {
      SumUpdate(s.balances, owner, ReadBalance(s, owner) + amount);
      assert r.state.balances == s.balances[owner := ReadBalance(s, owner) + amount];
    }
  }

  /** Burning takes the same amount from the balances' sum as from the supply counter. */
  lemma BurnPreservesSupply(s: LedgerState, owner: Address, amount: U256)
    ensures Burn(s, owner, amount).result.Ok? ==> Sum(Burn(s, owner, amount).state.balances) + amount == Sum(s.balances)
    ensures SupplyMatches(s) ==> SupplyMatches(Burn(s, owner, amount).state)
  {
    var r := Burn(s, owner, amount);
    if r.result.Ok? {
      SumUpdate(s.balances, owner, ReadBalance(s, owner) - amount);
      assert r.state.balances == s.balances[owner := ReadBalance(s, owner) - amount];
    }
  }

  /** A transfer to oneself of no more than one holds succeeds and changes no balance. */
  lemma SelfTransferIsNoOp(s: LedgerState, a: Address, amount: U256)
    requires amount <= BalanceOf(s, a)
    ensures Transfer(s, a, a, amount).result == Ok
    ensures SameBalances(Transfer(s, a, a, amount).state, s)
  {
  }

  /** Transferring an amount back undoes a successful transfer. */
  lemma TransferBackRestores(s: LedgerState, a: Address, b: Address, amount: U256)
    requires Transfer(s, a, b, amount).result.Ok?
    ensures Transfer(Transfer(s, a, b, amount).state, b, a, amount).result == Ok
    ensures SameBalances(Transfer(Transfer(s, a, b, amount).state, b, a, amount).state, s)
  {
  }

  /** A second approval replaces the first; nothing accumulates. */
  lemma ApproveOverwrites(s: LedgerState, caller: Address, spender: Address, x: U256, y: U256)
    ensures Approve(Approve(s, caller, spender, x).state, caller, spender, y) == Approve(s, caller, spender, y)
    ensures Allowance(Approve(Approve(s, caller, spender, x).state, caller, spender, y).state, caller, spender) == y
  {
  }

  /** Burning what was just minted restores every balance and the supply. */
  lemma MintThenBurnRestores(s: LedgerState, owner: Address, amount: U256)
    requires Mint(s, owner, amount).result.Ok?
    ensures Burn(Mint(s, owner, amount).state, owner, amount).result == Ok
    ensures SameBalances(Burn(Mint(s, owner, amount).state, owner, amount).state, s)
    ensures Burn(Mint(s, owner, amount).state, owner, amount).state.totalSupply == s.totalSupply
  {
  }

  /** Minting what was just burned restores every balance and the supply. */
  lemma BurnThenMintRestores(s: LedgerState, owner: Address, amount: U256)
    requires Burn(s, owner, amount).result.Ok?
    ensures Mint(Burn(s, owner, amount).state, owner, amount).result == Ok
    ensures SameBalances(Mint(Burn(s, owner, amount).state, owner, amount).state, s)
    ensures Mint(Burn(s, owner, amount).state, owner, amount).state.totalSupply == s.totalSupply
  {
  }
}
