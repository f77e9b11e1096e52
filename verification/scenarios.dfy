/** Concrete runs of the ledger with small amounts. */
module Scenarios {
  import opened UInt256
  import opened Types
  import opened Stores
  import opened Erc20

  const A := Account(1)
  const B := Account(2)
  const S := Contract(3)

  lemma TransferScenario()
    ensures Transfer(Install(A, 1000), A, B, 300).result == Ok
    ensures BalanceOf(Transfer(Install(A, 1000), A, B, 300).state, A) == 700
    ensures BalanceOf(Transfer(Install(A, 1000), A, B, 300).state, B) == 300
  {
  }

  lemma DelegatedTransferScenario()
    ensures var approved := Approve(Install(A, 1000), A, S, 100).state;
            var spent := TransferFrom(approved, S, A, B, 60);
            && spent.result == Ok
            && Allowance(spent.state, A, S) == 40
            && BalanceOf(spent.state, A) == 940
            && BalanceOf(spent.state, B) == 60
            && TransferFrom(spent.state, S, A, B, 150) == Step(Err(InsufficientAllowance), spent.state)
  {
  }

  lemma ZeroDelegatedTransferScenario()
    ensures TransferFrom(Install(A, 1000), S, A, B, 0) == Step(Ok, Install(A, 1000))
    ensures TransferFrom(Install(A, 1000), S, A, B, 1).result == Err(InsufficientAllowance)
  {
  }

  lemma MintOverflowScenario()
    ensures Mint(Install(A, MAX), B, 1) == Step(Err(Overflow), Install(A, MAX))
    ensures Mint(Install(A, MAX - 1), B, 1).result == Ok
  {
  }
}
