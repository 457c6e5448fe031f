# Two FRAME pallets: a token ledger and a periodically cleared accumulator

This project models the state-transition logic of two Substrate FRAME pallets.

- **mint-token** (`mint_token.dfy`, module `MintToken`). The pallet stores `BalanceToAccount`, a map from account to balance. An account that was never written reads as 0. `mint` overwrites the signer's balance. `transfer` computes a saturating subtraction for the sender and a saturating addition for the recipient, then inserts both under the sender's key. Each call deposits one event. The class `MintToken.Ledger` holds the map and the event log. Its methods are proved equal to pure map functions: `Mint` to `Minted`, `Transfer` to `TransferredAsWritten`, and the corrected alternative `TransferIntended` to `TransferredIntended`. The lemmas are stated about those functions. The datatypes `Call` and `Extrinsic` and the functions `Apply` and `Run` describe a sequence of signed `mint` and `transfer` calls. They carry no contract of their own and exist only to state `BystanderUnchanged`.
- **config-constant** (`config_constant.dfy`, module `ConfigConstant`). The pallet stores `SingleValue`, one u32 cell that starts at 0. `add_value` refuses an addend above `MaxAddend` and fails with `Overflow` when the checked u32 addition does not fit. Otherwise it stores the sum and deposits `Added(old, addend, new)`. The `on_finalize(n)` hook stores 0 and deposits `Cleared(old)` whenever `n % ClearFrequency == 0`. The predicate `ClearDue` is that guard of the hook. The class `ConfigConstant.Accumulator` keeps both configuration constants as `const` fields, the cell, and the event log. Its methods are proved equal to the pure steps `AddValueStep` and `FinalizeStep`. The class invariant `Valid()` says that the event log is the cell's complete history since genesis. Both methods preserve it, and afterwards the cell equals the value the event log replays to.

Modelling choices:

- The already-authenticated signer is a plain parameter.
- Events are appended to a `seq` field that stands for the runtime's event deposit.
- Accounts are a type parameter with equality.
- `Balance` is a `nat` bounded by `MAX_BALANCE`, which is 2^128 - 1 (the width of `u128`).
- The block number is an unbounded `nat`.
- `ClearFrequency` has the type `Period`, a `nat` greater than 0.
- The string error of the addend check is the constructor `InvalidAmount`.

## Model

| member | source | states |
|---|---|---|
| `MintToken.BalanceOf` | pallets/mint-token/src/lib.rs:23-26 | reading an account that is absent from the map gives 0; reading a written account gives its stored balance |
| `MintToken.SaturatingSub` | pallets/mint-token/src/lib.rs:74 | the sender's new balance never goes below 0 and never exceeds the old balance; it is the exact difference when the amount is covered, and 0 otherwise |
| `MintToken.SaturatingAdd` | pallets/mint-token/src/lib.rs:75 | the recipient's computed balance lies between the old balance and the old balance plus the amount; it is the exact sum when that fits, and MAX_BALANCE otherwise, so it never wraps |
| `MintToken.Minted` | pallets/mint-token/src/lib.rs:54 | after `mint`, the signer holds exactly `amount` whatever it held before, and every other account is unchanged |
| `MintToken.MintOverwrites` | pallets/mint-token/src/lib.rs:54 | two mints into one account leave the second amount only (`mint 100` then `mint 50` leaves 50) |
| `MintToken.TransferredAsWritten` | pallets/mint-token/src/lib.rs:70-79 | after `transfer` as written, the sender holds the saturated sum of the recipient's old balance and the amount; every other account is unchanged, and so is the recipient when it is not the sender |
| `MintToken.TransferAsWrittenCreatesFunds` | pallets/mint-token/src/lib.rs:78-79 | concrete case: a sender with 0 that sends 30 to a recipient with 100 ends with 130, and the recipient keeps 100 |
| `MintToken.TransferredIntended` | pallets/mint-token/src/lib.rs:77-79 | with the two-sided writes, the sender (when it is not the recipient) holds the saturated difference, the recipient holds the saturated sum, and every other account is unchanged |
| `MintToken.TransferCoveredCase` | pallets/mint-token/src/lib.rs:74-79 | concrete case: a sender with 100 that sends 30 to a recipient with 0 ends with 30 under the pallet's writes, and the recipient keeps 0; under the two-sided writes they end with 70 and 30 |
| `MintToken.TransferIntendedUncoveredCreatesFunds` | pallets/mint-token/src/lib.rs:74-75 | concrete case: under the two-sided writes, a sender with 0 that sends 30 to a recipient with 100 leaves 0 and 130, because the subtraction stops at 0 while the recipient is credited in full |
| `MintToken.TransferIntendedConserves` | pallets/mint-token/src/lib.rs:74-79 | with the two-sided writes, a covered transfer between distinct accounts that does not saturate moves exactly `amount` and keeps the sum of the two balances |
| `MintToken.TransferIntendedAccounting` | pallets/mint-token/src/lib.rs:74-79 | with the two-sided writes between distinct accounts, on any input, the two balances' sum grows by exactly what the recipient is credited and shrinks by exactly what the sender is debited; it changes only when the sender cannot cover the amount or the recipient saturates |
| `MintToken.BystanderUnchanged` | pallets/mint-token/src/lib.rs:54-79 | over any sequence of mints and transfers as written, an account that signs none of them keeps its balance, however much is sent to it |
| `MintToken.Ledger.constructor` | pallets/mint-token/src/lib.rs:25-26 | the map starts empty, so every account reads 0, and no event has been deposited |
| `MintToken.Ledger.Mint` | pallets/mint-token/src/lib.rs:50-61 | `mint` changes the map as `Minted` says, never fails, and appends exactly `MintedNewSupply(sender)` |
| `MintToken.Ledger.Transfer` | pallets/mint-token/src/lib.rs:64-84 | `transfer` changes the map as `TransferredAsWritten` says, never fails, and appends exactly `Transferred(sender, to, amount)` |
| `MintToken.Ledger.TransferIntended` | pallets/mint-token/src/lib.rs:64-84 | the corrected two-sided transfer changes the map as `TransferredIntended` says and appends exactly `Transferred(sender, to, amount)` |
| `ConfigConstant.CheckedAdd` | pallets/config-constant/src/lib.rs:63 | the u32 sum is present exactly when it is at most 0xFFFF_FFFF, and then it is the exact sum |
| `ConfigConstant.ClearSchedule` | pallets/config-constant/src/lib.rs:43 | among the blocks `k*f` to `k*f + f - 1`, the hook's guard holds at the first block only |
| `ConfigConstant.AddValueStep` | pallets/config-constant/src/lib.rs:54-68 | fails with `InvalidAmount` exactly when the addend exceeds `MaxAddend`; fails with `Overflow` exactly when the addend is allowed but the sum exceeds u32; a failure changes neither the cell nor the events; success stores the exact sum and appends exactly `Added(old, addend, sum)` |
| `ConfigConstant.FinalizeStep` | pallets/config-constant/src/lib.rs:42-48 | at a block where `n % ClearFrequency == 0`, the cell becomes 0 and exactly `Cleared(old)` is appended, even when `old` is 0; at any other block nothing changes |
| `ConfigConstant.FinalizeIdempotent` | pallets/config-constant/src/lib.rs:43-45 | running the hook twice for the same block leaves the same cell value as running it once |
| `ConfigConstant.ChainedAppend` | pallets/config-constant/src/lib.rs:31-32 | a sound event whose recorded old value is where a history ends extends that history |
| `ConfigConstant.ChainedReplays` | pallets/config-constant/src/lib.rs:31-32 | a consistent event history determines the cell value: it is the last event's new value (0 after `Cleared`), or the starting value when there are no events |
| `ConfigConstant.AddValueKeepsHistory` | pallets/config-constant/src/lib.rs:61-66 | `add_value` keeps the event log a consistent history of the cell from 0 |
| `ConfigConstant.FinalizeKeepsHistory` | pallets/config-constant/src/lib.rs:43-46 | `on_finalize` keeps the event log a consistent history of the cell from 0 |
| `ConfigConstant.Accumulator.constructor` | pallets/config-constant/src/lib.rs:15-26 | the configuration constants are fixed, `SingleValue` reads 0, there are no events, and the invariant holds |
| `ConfigConstant.Accumulator.AddValue` | pallets/config-constant/src/lib.rs:54-68 | `add_value` returns and stores what `AddValueStep` gives, preserves the invariant, and leaves the cell equal to the value its event log replays to |
| `ConfigConstant.Accumulator.OnFinalize` | pallets/config-constant/src/lib.rs:42-48 | `on_finalize` stores what `FinalizeStep` gives, never fails, preserves the invariant, and leaves the cell equal to the value its event log replays to |

## Left out

- Origin checks (`ensure_signed`): the signer is a parameter, and the unsigned-origin error path is not modelled.
- Weights, `#[pallet::*]` attributes, storage hashing, event metadata and hook registration: these are framework plumbing with no logic.
- The unused errors `NoneValue` and `StorageOverflow` of mint-token: no call returns them.
- The text of the `add_value` string error: only the distinct error `InvalidAmount` is modelled.
- The runtime's concrete `Balance` and `BlockNumber` types: the runtime is not part of this model. Balance is bounded by `MAX_BALANCE = 2^128 - 1`, and the block number is unbounded.
- `ClearFrequency == 0`: the hook would divide by zero, and the `Period` type rules it out.
- Persistence, event delivery and the ordering of calls across nodes: the runtime runs calls one at a time, so no concurrency is modelled.
- A conservation property for the whole ledger: the pallet promises none.
- TransferIntendedConserves: holds only when the two accounts are distinct, the sender's balance covers the amount, and the recipient's new balance does not reach `MAX_BALANCE`. Outside those cases even the two-sided transfer does not conserve: `saturating_sub` stops at 0 while the recipient is credited the full amount, as `TransferIntendedUncoveredCreatesFunds` shows. `TransferIntendedAccounting` gives the exact change of the sum on every input.

## Findings

| source | as written | input that shows it | evidently intended | confidence | as-written member | corrected member |
|---|---|---|---|---|---|---|
| pallets/mint-token/src/lib.rs:79 | the second insert stores the recipient's new balance under the sender's key, so the recipient never receives the funds and the sender's balance is replaced by the recipient's plus the amount | balances `{0: 100, 1: 0}`, `transfer(0, 1, 30)` leaves `{0: 30, 1: 0}` | insert the recipient's new balance under `to`, as the comment "Update both accounts storage" says, which gives `{0: 70, 1: 30}` and keeps the sum | not executed | `MintToken.TransferCoveredCase` | `MintToken.TransferIntendedConserves` |

The literal `Ledger.Transfer` and the trace function `Run` keep the source's behaviour on purpose, so the model stays faithful to the pallet. `Ledger.TransferIntended` is the corrected alternative.
