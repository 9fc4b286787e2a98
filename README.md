# Rust state machine pallets in Dafny

This project models the three state-owning pallets of a small ledger runtime:

- **balances**: a map from account to `u128` balance. It offers an unconditional `set_balance`, a `balance` getter that reads an absent account as zero, and `transfer`. `transfer` does a checked subtract on the caller, then a checked add on the recipient, then two inserts.
- **system**: a `u32` block number and a map from account to `u32` nonce. `inc_nonce` reads an absent entry as zero. `get_nonce` reads it as one.
- **proof of existence**: a map from content to owning account. It has `create_claim`, `revoke_claim`, a two-variant `Call` and a `dispatch` that forwards each variant to the matching call.

Each pallet is a Dafny `class Pallet` whose fields are the source's maps and counters. Its methods update those fields in place. The mutating methods are specified against value-level functions over the maps (`ApplyTransfer`, `ApplyIncNonce`, `ApplyCreateClaim`, `ApplyRevokeClaim`). Each method's `ensures` equates the returned result and the new map with that function applied to the old map. The properties the pallets promise are stated in those functions' contracts and in lemmas about them: error cases, "nothing else changes", conservation of funds, round trips and nonce counting.

`support.dfy` holds the shared `Option`, `DispatchResult` (`Ok` or `Err(reason)`) and `Transition` (result paired with post-state) datatypes. `runtime.dfy` holds the runtime struct of the demo binary and a method that replays its call sequence.

Behaviour kept as the code has it, where a prose description of the system says otherwise:

- A self-transfer (`caller == to`) that passes both checks leaves the account at `old + amount`, because the second insert overwrites the first. It does not leave the balance unchanged. `Balances.SelfTransferMints` proves the total supply rises by `amount`.
- `get_nonce` reads an account with no entry as 1. `inc_nonce` reads it as 0.

## Model

| member | source | states |
|---|---|---|
| `Balances.CheckedSub` | src/balances.rs:44 | `checked_sub` fails exactly when the amount exceeds the balance; otherwise the result plus the amount gives back the balance |
| `Balances.CheckedAdd` | src/balances.rs:45 | `checked_add` fails exactly when the sum exceeds the `u128` maximum; otherwise it is the sum |
| `Balances.ApplyTransfer` | src/balances.rs:35-51 | "Not enough funds." iff the caller's balance is below the amount (checked first); "Overflow" iff it is not and the recipient's balance plus the amount exceeds the maximum; Ok iff both checks pass; on an error the map is unchanged; on success caller and recipient get entries, the caller loses and the recipient gains `amount` (for `caller == to` the account ends at `old + amount`), and every other account is unchanged |
| `Balances.TransferConservesPair` | src/balances.rs:44-48 | for distinct caller and recipient, their joint balance is the same after the call |
| `Balances.TransferConservesTotal` | src/balances.rs:41-50 | for distinct caller and recipient, the sum of all balances in the ledger is the same after the call, whatever its outcome |
| `Balances.SelfTransferMints` | src/balances.rs:41-48 | a self-transfer that passes both checks succeeds and raises the total of all balances by exactly `amount` |
| `Balances.Pallet.constructor` | src/balances.rs:15-19 | a new ledger is empty and every account's balance reads 0 |
| `Balances.Pallet.SetBalance` | src/balances.rs:21-23 | the entry for `who` becomes `amount` whether or not it existed; every other account's balance is unchanged |
| `Balances.Pallet.Balance` | src/balances.rs:25-27 | the stored balance, or 0 for an account with no entry |
| `Balances.Pallet.Transfer` | src/balances.rs:35-51 | the returned result and the new ledger are those of `ApplyTransfer` on the old ledger |
| `System.ApplyIncNonce` | src/system.rs:33-37 | with the nonce below the `u32` maximum, `who` gets an entry holding its previous nonce (absent = 0) plus one; no other account's nonce changes, and no nonce decreases |
| `System.NonceDefaultsDiffer` | src/system.rs:34-40 | the nonce `get_nonce` reports equals the one `inc_nonce` starts from iff the account has an entry; for an account with no entry `get_nonce` gives 1 before and after one increment |
| `System.IncNonceTimes` | src/system.rs:33-37 | `n` consecutive increments raise `who`'s stored nonce by exactly `n` and leave every other account unchanged |
| `System.NonceCountsIncrements` | src/system.rs:33-41 | from an empty nonce map, `get_nonce` after `n` increments is `n` for `n >= 1` and 1 for `n == 0` |
| `System.Pallet.constructor` | src/system.rs:17-22 | a new system pallet is at block 0 with no nonce entries |
| `System.Pallet.GetBlockNumber` | src/system.rs:24-26 | returns the current block number and changes nothing |
| `System.Pallet.IncBlockNumber` | src/system.rs:28-31 | the block number rises by exactly one and the nonce map is unchanged |
| `System.Pallet.IncNonce` | src/system.rs:33-37 | the new nonce map is `ApplyIncNonce` of the old one and the block number is unchanged |
| `System.Pallet.GetNonce` | src/system.rs:39-41 | returns the stored nonce, or 1 for an account with no entry, and changes nothing |
| `ProofOfExistence.ApplyCreateClaim` | src/proof_of_existence.rs:34-40 | "this content is already claimed" iff the content has an owner, and then the registry (with that owner) is unchanged; otherwise Ok, the caller owns the content, and no other content's owner changes |
| `ProofOfExistence.ApplyRevokeClaim` | src/proof_of_existence.rs:45-52 | "claim does not exist" iff the content has no owner; "this content belongs someone else" iff it has an owner other than the caller; Ok iff the caller owns it, and then the entry is removed; on an error the registry is unchanged; no other content's owner changes |
| `ProofOfExistence.CreateThenRevokeRestores` | src/proof_of_existence.rs:34-52 | claiming unclaimed content and then revoking it as the same caller both succeed and give back the original registry |
| `ProofOfExistence.OwnerNeverReassigned` | src/proof_of_existence.rs:34-52 | neither call moves claimed content to another owner: create keeps every existing owner, and revoke only ever removes an entry |
| `ProofOfExistence.Pallet.constructor` | src/proof_of_existence.rs:23-25 | a new registry is empty, so every content reads as unclaimed |
| `ProofOfExistence.Pallet.GetClaim` | src/proof_of_existence.rs:28-30 | `Some(owner)` exactly for claimed content, carrying its stored owner; `None` otherwise |
| `ProofOfExistence.Pallet.CreateClaim` | src/proof_of_existence.rs:34-40 | the returned result and the new registry are those of `ApplyCreateClaim` on the old registry |
| `ProofOfExistence.Pallet.RevokeClaim` | src/proof_of_existence.rs:45-52 | the returned result and the new registry are those of `ApplyRevokeClaim` on the old registry |
| `ProofOfExistence.Pallet.Dispatch` | src/proof_of_existence.rs:55-80 | `CreateClaim { claim }` and `RevokeClaim { claim }` return exactly what `create_claim` and `revoke_claim` return for the same caller, with the same effect on the registry |
| `Runtime.Runtime.constructor` | src/main.rs:28-35 | a new runtime holds a fresh system pallet at block 0 with no nonces and a fresh, empty ledger |
| `Runtime.ReplayMain` | src/main.rs:44-63 | after funding jae with 100, one block and two nonce-bumped transfers (30 to foo, 20 to bar), the block number is 1, both transfers return Ok, jae has 50, foo 30, bar 20, and `get_nonce(jae)` is 2 |

## Left out

- `System.Pallet.IncBlockNumber`: the unchecked `+=` at the `u32` maximum (a panic in debug builds, a wrap in release builds) is excluded by a precondition rather than modelled.
- `System.Pallet.IncNonce`: the `unwrap` panic when the nonce is already at the `u32` maximum is excluded by a precondition, as is the same case in `System.ApplyIncNonce`.
- The balances call enum and its dispatch: they are generated by the `#[macros::call]` attribute, whose macro crate is not part of this model, and the hand-written version in src/balances.rs is commented out.
- `crate::support` (`DispatchResult`, the `Dispatch` trait) is not part of this model. `Support.DispatchResult` stands in for `Result<(), &'static str>`, and `Dispatch` is a plain method of the proof-of-existence pallet.
- The `Config` traits and `num` trait bounds: account ids and content are type parameters with equality. `Balance` is a natural number up to 2^128-1. `BlockNumber` and `Nonce` are natural numbers up to 2^32-1.
- `get_claim` returns a borrowed `Option<&AccountId>` in the source. Here it returns the owner by value.
- `main` printing (`println!`, the `Debug` dump of the runtime) and the ignored transfer results: output is not modelled. `Runtime.ReplayMain` returns the values the program would print.
- There is no block executor, runtime-level call enum, or increment-nonce-then-dispatch loop in these source files, so none is modelled.
- The `#[cfg(test)]` modules are not modelled as code. Their assertions are covered by the contracts above: the initial balance 0, `set_balance` followed by `balance`, a 50-unit transfer, block 0 and then 1, one increment reading 1, and the claim error cases.
