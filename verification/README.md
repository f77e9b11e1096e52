# ERC-20 token ledger (Casper contract) in Dafny

This project models the token ledger of the `ERC20` contract in
`contract/src/main.rs`: a balance per address, an allowance per (owner, spender)
pair and a total-supply counter, all unsigned 256-bit values, and the operations
`total_supply`, `balance_of`, `allowance`, `transfer`, `transfer_from`, `approve`,
`mint` and `burn` built on them with checked arithmetic.

The ledger is an immutable `LedgerState` (two `map`s and a `U256`; an absent key
reads as 0). Every transition is a pure function returning a `Step`: the
`Result` the source returns (`Ok`, or `Err` with `InsufficientBalance`,
`InsufficientAllowance` or `Overflow`) together with the state the operation has
written. The identity of the immediate caller is an explicit `caller` parameter.

Files, one module each:

- `uint256.dfy` (`UInt256`): the 256-bit range and `checked_add` / `checked_sub`.
- `types.dfy` (`Types`): `Address` (`Account` or `Contract`, compared structurally), `Error`, `Result`.
- `stores.dfy` (`Stores`): the state, the `read_*` / `write_*` helpers and the balance debit/credit primitive.
- `balance_sum.dfy` (`BalanceSum`): the sum of all balances and how one overwrite moves it.
- `erc20.dfy` (`Erc20`): installation state, queries and transitions.
- `properties.dfy` (`Erc20Properties`): the supply invariant and the laws between operations.
- `execution.dfy` (`Execution`): arbitrary sequences of calls from an installed ledger.
- `scenarios.dfy` (`Scenarios`): small concrete runs.

The balance primitive `transfer_balance` (main.rs:90-97) delegates to
`balances::transfer_balance`; `contract/src/balances.rs` is not part of this model.
Its behaviour is assumed: debit the sender with a checked subtraction
(`InsufficientBalance` on underflow), write the sender's new balance, then re-read
the recipient and credit it with a checked addition (`Overflow` on overflow). Because
the recipient is re-read after the sender write, a self-transfer changes nothing.
On the overflow path the debit has already been written; `TransferBalance` returns
that partially written state.

The main results: the supply equals the sum of all balances after installation and
after any sequence of calls (`Execution.ReachableStatesMatchSupply`). Under that
invariant no balance is large enough for a credit to overflow, so the partially
written path above is unreachable, and every failing call leaves the ledger exactly
as it was. Likewise `burn`'s supply-underflow check, which the source reports as
`Overflow`, can never fail while the invariant holds (`Erc20Properties.BurnCannotOverflow`).

Writes always store the key, even for a 0 value, so a state in which an address
was never written and one in which 0 was written read the same but are different
maps. "Nothing changed" for balances is therefore stated as `SameBalances` (every
address reads the same).

## Model

| member | source | states |
|---|---|---|
| UInt256.CheckedAdd | contract/src/main.rs:154-161 | `checked_add` is defined exactly when the sum is at most 2^256 - 1, and then yields the sum |
| UInt256.CheckedSub | contract/src/main.rs:167-176 | `checked_sub` is defined exactly when the subtrahend is at most the minuend, and then yields the difference |
| Stores.ReadBalance | contract/src/main.rs:68-70 | a balance read returns the stored value, or 0 for an address never written |
| Stores.WriteBalance | contract/src/main.rs:72-74 | after writing, the address reads the new value; every other address, the allowances and the supply are unchanged |
| Stores.ReadAllowance | contract/src/main.rs:82-84 | an allowance read returns the stored value for the (owner, spender) pair, or 0 if never written |
| Stores.WriteAllowance | contract/src/main.rs:86-88 | after writing, the pair reads the new value; every other pair, the balances and the supply are unchanged |
| Stores.WriteTotalSupply | contract/src/main.rs:60-62 | after writing, the supply is the new value; balances and allowances are unchanged |
| Stores.TransferBalance | contract/src/main.rs:90-97 | fails `InsufficientBalance` iff the sender holds less than the amount, then nothing is written; fails `Overflow` iff the sender is covered, the recipient is another address and its credit would pass the maximum, then only the debit is written; on success the sender loses and the recipient gains exactly the amount (a self-transfer changes nothing); no other balance, no allowance and not the supply change |
| Erc20.Install | contract/src/main.rs:308-337 | the deployer holds the whole initial supply, every other address holds 0, no allowance exists, and the supply counter is the initial supply |
| Erc20.TotalSupply | contract/src/main.rs:111-113 | the query returns the supply counter |
| Erc20.BalanceOf | contract/src/main.rs:115-117 | the query returns the stored balance, or 0 for an address never written |
| Erc20.Allowance | contract/src/main.rs:149-151 | the query returns the stored allowance of the (owner, spender) pair, or 0 if never written |
| Erc20.Transfer | contract/src/main.rs:119-122 | the caller's transfer is the balance primitive with the caller as sender; it succeeds iff the caller holds the amount and the recipient is the caller or can be credited without overflow |
| Erc20.TransferFrom | contract/src/main.rs:124-141 | succeeds iff the amount is zero, or it is within the owner's allowance to the caller and the balance transfer succeeds; a zero amount succeeds with the state untouched, whatever the allowance; it fails `InsufficientAllowance` iff the amount is positive and exceeds the owner's allowance to the caller, with the state untouched; a failing balance transfer is returned unchanged with the allowance not written; on success the allowance drops by exactly the amount and the balances are those of the balance transfer; no other allowance and not the supply change |
| Erc20.Approve | contract/src/main.rs:143-147 | always succeeds; the (caller, spender) allowance becomes the amount; no other allowance, no balance and not the supply change |
| Erc20.Mint | contract/src/main.rs:153-165 | fails iff the owner's balance plus the amount or the supply plus the amount passes the maximum, always as `Overflow` and with the state untouched; on success both grow by exactly the amount; no other balance and no allowance change |
| Erc20.Burn | contract/src/main.rs:166-180 | fails `InsufficientBalance` iff the owner holds less than the amount; fails `Overflow` iff the owner is covered but the supply is below the amount; any failure leaves the state untouched; on success both the balance and the supply shrink by exactly the amount; no other balance and no allowance change |
| Erc20Properties.InstallMatchesSupply | contract/src/main.rs:308-337 | the installed ledger's supply equals the sum of its balances |
| Erc20Properties.TransferBalanceConservesSum | contract/src/main.rs:90-97 | a successful balance transfer leaves the sum of all balances unchanged |
| Erc20Properties.TransferCannotOverflow | contract/src/main.rs:90-97 | while the supply equals the sum of balances, a balance transfer never fails with `Overflow`, so its partially written path is unreachable |
| Erc20Properties.BurnCannotOverflow | contract/src/main.rs:173-176 | while the supply equals the sum of balances, burn never reaches the supply underflow reported as `Overflow` |
| Erc20Properties.TransferPreservesSupply | contract/src/main.rs:119-122 | from a state whose supply equals the sum of balances, a transfer keeps that equality, and a failing transfer leaves the state untouched |
| Erc20Properties.TransferFromPreservesSupply | contract/src/main.rs:124-141 | from a state whose supply equals the sum of balances, a delegated transfer keeps that equality, and a failing one leaves the state untouched |
| Erc20Properties.MintPreservesSupply | contract/src/main.rs:153-165 | a successful mint adds the amount to the sum of balances, as it does to the supply, so the invariant is kept |
| Erc20Properties.BurnPreservesSupply | contract/src/main.rs:166-180 | a successful burn takes the amount from the sum of balances, as it does from the supply, so the invariant is kept |
| Erc20Properties.SelfTransferIsNoOp | contract/src/main.rs:119-122 | a transfer to oneself of at most one's balance succeeds and changes no balance |
| Erc20Properties.TransferBackRestores | contract/src/main.rs:119-122 | after a successful transfer from A to B, transferring the same amount back succeeds and restores every balance |
| Erc20Properties.ApproveOverwrites | contract/src/main.rs:143-147 | approving X then Y yields the same state as approving Y alone; the allowance is Y, with no accumulation |
| Erc20Properties.MintThenBurnRestores | contract/src/main.rs:153-180 | burning what a successful mint created succeeds and restores every balance and the supply |
| Erc20Properties.BurnThenMintRestores | contract/src/main.rs:153-180 | minting what a successful burn destroyed succeeds and restores every balance and the supply |
| Execution.Apply | contract/src/main.rs:119-180 | a failing approve, mint or burn call leaves the state untouched |
| Execution.ApplyPreservesSupply | contract/src/main.rs:119-180 | from a state whose supply equals the sum of balances, every call keeps that equality, and every failing call leaves the state untouched |
| Execution.RunPreservesSupply | contract/src/main.rs:49-181 | any sequence of calls from a state whose supply equals the sum of balances ends in such a state |
| Execution.ReachableStatesMatchSupply | contract/src/main.rs:303-369 | in every state reachable from installation by any sequence of calls, the supply equals the sum of all balances |
| Scenarios.TransferScenario | contract/src/main.rs:119-122 | from 1000 held by A, transferring 300 to B leaves A with 700 and B with 300 |
| Scenarios.DelegatedTransferScenario | contract/src/main.rs:124-147 | after A approves S for 100, S moving 60 from A to B leaves an allowance of 40 and balances 940 and 60; a further 150 fails `InsufficientAllowance` with nothing changed |
| Scenarios.ZeroDelegatedTransferScenario | contract/src/main.rs:131-137 | a zero-amount delegated transfer with no allowance succeeds with nothing changed, while an amount of 1 fails `InsufficientAllowance` |
| Scenarios.MintOverflowScenario | contract/src/main.rs:153-165 | minting 1 when the supply is already the maximum fails `Overflow` with nothing changed; one below the maximum it succeeds |

## Left out

- Caller resolution (`detail::get_immediate_caller_address`): the caller is a parameter, and the error that call can return (the `?` at main.rs:120, 130 and 144) is not modelled; `contract/src/detail.rs` is not part of this model.
- The admin gate (`assert_caller_is_admin`, main.rs:275 and 284) and the `SwprToken` / `AdminControl` wiring (main.rs:183-204, 291-301): their logic lives in the external `contract_utils` crate; `Mint` and `Burn` are modelled as the ledger methods the gate protects, without a permission check.
- The `extern "C"` entry points (main.rs:199-301): argument decoding, return-value serialisation and `unwrap_or_revert` are host plumbing.
- Installation (`call()`, main.rs:303-369): storage allocation, named keys and contract creation are host plumbing; only the resulting ledger state is modelled, by `Erc20.Install`.
- The `OnceCell` storage-handle memoisation (main.rs:44-80) and the metadata getters `name`, `symbol`, `decimals` (main.rs:99-109): they only fetch storage handles or immutable values.
- Host rollback of a failed call: each `Step` carries the state the operation itself wrote; the one partially written path (a recipient overflow in `TransferBalance`) is shown unreachable under the supply invariant instead.
- Address hashes are kept as numbers, since the ledger only compares addresses; their 32-byte encoding and the storage-key encoding of addresses are not modelled.
- The TypeScript deploy and client scripts under `src/`: network clients and configuration loading, with no ledger logic.
