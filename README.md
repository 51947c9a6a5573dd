# Milestone escrow: a Dafny model

This project models the milestone escrow program `anchor_escrow`
(`programs/anchor-escrow/src/lib.rs`), an on-chain program for Solana's Anchor
framework.

An initializer locks tokens of one mint in a vault, split into five milestone
amounts. The initializer then releases them one milestone at a time to a
receiving account (`approve`), or takes back everything still locked and closes
the escrow (`cancel`). A separate instruction (`init_admin`) creates a single
administrator record that stores two keys.

## Modules

- **`Chain`** (`chain.dfy`): addresses, the `u64` range and the result types.
  - `Pubkey` has one constructor for ordinary key-pair addresses and one for each program-derived address the program uses:
    - the escrow record at seeds `["state", seed]`
    - its vault at `["vault", seed]`
    - the administrator record at `["admin"]`
    - the vault authority at `["authority"]`
  - Distinct constructors are distinct addresses.
- **`Token`** (`token.dfy`): the token ledger the program calls into.
  - The ledger is a map from address to (mint, owner, balance).
  - The four token instructions the program invokes are pure functions on that map: create an account, transfer, change the owner, close an empty account. Each yields the new map or the reason it aborts, and none creates or destroys tokens.
  - The class `Ledger` holds the map and applies the instructions in place.
- **`EscrowSpec`** (`escrow_spec.dfy`): the program stated on values.
  - The record `EscrowRecord`.
  - The account checks of each instruction, as functions that return the first failed check.
  - The token effect of each handler, as a composition of token instructions.
  - The invariants `Backed` and `VaultsHeld` (below), and the lemmas about them.
- **`Escrow`** (`escrow.dfy`): the instructions as methods that change state in place.
  - `ProgramAccounts` holds the set of addresses at which an account of the program exists. Creating an account at an address in the set fails, as `init` does. Closing the record removes its address.
  - `AdminRecord` and `EscrowState` are classes holding the data stored at one address. `EscrowState` keeps its five milestone amounts in a length-5 `array`.
  - The `vault_authority` account that `approve` and `cancel` pass to the token program is a parameter, because the program does not check it.
  - Each handler runs its account checks first; a failed check aborts with nothing changed.
  - If a token instruction in the handler body fails, every change the body already made is undone, as the runtime reverts a failed instruction.
- **`Walkthrough`** (`walkthrough.dfy`): the scenarios of `tests/anchor-escrow.ts` on concrete accounts.

## Invariants

- `Backed(a, rec)`: the vault of `rec` exists, is owned by the program's vault authority, and holds exactly the sum of the milestones not yet paid. The deposit account is not a vault.
  - `initialize` establishes it.
  - `approve` through the record's own vault to another account preserves it.
  - `cancel` through the record's own vault pays the whole sum back and removes the vault.
- `VaultsHeld(a)`: every vault that exists is owned by the vault authority. Every instruction preserves it.
- `Backed` is kept only by the program's own instructions. Anyone may transfer tokens into a vault, which leaves it holding more than the slots (`DonationBlocksCancel`).

## Model

| member | source | states |
|---|---|---|
| `Token.ApplyInitialize` | programs/anchor-escrow/src/lib.rs:161-169 | Creating the vault succeeds exactly when its address is unused. The new account is of the given mint, owned by the initializer, and empty. Every other account is unchanged. |
| `Token.ApplyTransfer` | programs/anchor-escrow/src/lib.rs:45-52 | A transfer succeeds exactly when both accounts exist, the source holds enough, the mints agree, the signer owns the source, and the destination cannot pass `u64`. The source loses and the destination gains exactly `amount`; nothing else changes. A transfer to the same account changes nothing. |
| `Token.ApplySetAuthority` | programs/anchor-escrow/src/lib.rs:39-43 | Changing the owner succeeds exactly when the account exists and the signer owns it. Only that account's owner changes. |
| `Token.ApplyClose` | programs/anchor-escrow/src/lib.rs:73-77 | Closing succeeds exactly when the account exists, is empty and is owned by the signer. It removes exactly that account. |
| `Token.InitializeConserves` | programs/anchor-escrow/src/lib.rs:161-169 | Creating a token account leaves the total number of tokens unchanged. |
| `Token.TransferConserves` | programs/anchor-escrow/src/lib.rs:62-71 | A transfer leaves the total number of tokens across all accounts unchanged. |
| `Token.SetAuthorityConserves` | programs/anchor-escrow/src/lib.rs:39-43 | Changing an owner leaves the total unchanged. |
| `Token.CloseConserves` | programs/anchor-escrow/src/lib.rs:73-77 | Closing an (empty) account leaves the total unchanged. |
| `Token.Ledger.InitializeAccount` | programs/anchor-escrow/src/lib.rs:162-168 | In place: the ledger becomes the result of `ApplyInitialize`, or stays as it was with its error. |
| `Token.Ledger.Transfer` | programs/anchor-escrow/src/lib.rs:113-118 | In place: the ledger becomes the result of `ApplyTransfer`, or stays as it was with its error. |
| `Token.Ledger.SetAuthority` | programs/anchor-escrow/src/lib.rs:39-43 | In place: the ledger becomes the result of `ApplySetAuthority`, or stays as it was with its error. |
| `Token.Ledger.CloseAccount` | programs/anchor-escrow/src/lib.rs:73-77 | In place: the ledger becomes the result of `ApplyClose`, or stays as it was with its error. |
| `EscrowSpec.SumFive` | programs/anchor-escrow/src/lib.rs:47-51 | The sum of the milestones is the five-term sum `initializer_amount[0] + … + [4]` the program writes out. |
| `EscrowSpec.SumZeroSlot` | programs/anchor-escrow/src/lib.rs:117-120 | A slot never exceeds the sum, and zeroing one slot lowers the sum by exactly that slot. |
| `EscrowSpec.InitializeCheck` | programs/anchor-escrow/src/lib.rs:161-182 | The account checks of `initialize` pass exactly when: the vault is at `["vault", seed]` and unused; the deposit account exists and holds at least the sum of the five amounts; and the record address is `["state", seed]` and no program account exists there. |
| `EscrowSpec.InitializeFunds` | programs/anchor-escrow/src/lib.rs:39-52 | About `InitializeLedger`, the three token instructions of `initialize`. After the checks, they succeed exactly when the initializer owns the deposit account and it is of the vault's mint. The deposit account is then debited exactly the sum, and a new vault of that mint, owned by the vault authority, holds it. |
| `EscrowSpec.VaultCreated` | programs/anchor-escrow/src/lib.rs:39-43 | Creating the vault and handing it to the vault authority cannot fail once the vault address is unused. They yield an empty vault owned by the authority, so `InitializeLedger` is exactly the transfer into that vault. |
| `EscrowSpec.InitializeConservesTotal` | programs/anchor-escrow/src/lib.rs:36-52 | `initialize` moves tokens without creating or destroying any. |
| `EscrowSpec.InitializeEstablishesBacking` | programs/anchor-escrow/src/lib.rs:22-55 | A successful `initialize` leaves the new record backed: its vault holds exactly the sum of its five amounts. Every vault is still held by the authority. |
| `EscrowSpec.ApproveCheck` | programs/anchor-escrow/src/lib.rs:248-253 | The checks of `approve` pass exactly when: the record and the deposit account exist; the deposit account and the signer are the stored ones; the index is below 5 (a larger one aborts); and that slot is not zero. |
| `EscrowSpec.ApprovePreservesBacking` | programs/anchor-escrow/src/lib.rs:113-120 | Paying slot `idx` out of the record's own vault to another account, then zeroing the slot, keeps the record backed. |
| `EscrowSpec.ApproveRuns` | programs/anchor-escrow/src/lib.rs:113-118 | For a backed record, the payout of any slot succeeds whenever the receiver is another account of the vault's mint with room for the amount. |
| `EscrowSpec.TransferKeepsVaultsHeld` | programs/anchor-escrow/src/lib.rs:62-71 | No transfer changes an owner, so every vault stays held by the authority. |
| `EscrowSpec.TransferKeepsBacking` | programs/anchor-escrow/src/lib.rs:113-118 | A transfer that touches neither end of a record's vault leaves that record backed. |
| `EscrowSpec.CancelCheck` | programs/anchor-escrow/src/lib.rs:201-206 | The checks of `cancel` pass exactly when the record exists and the signer and deposit account are the stored ones. |
| `EscrowSpec.CancelRefunds` | programs/anchor-escrow/src/lib.rs:62-77 | Cancelling a backed record through its own vault cannot fail while the deposit account exists, is of the vault's mint and has room. It returns exactly the unpaid sum to the deposit account, removes the vault, and leaves the total unchanged. |
| `EscrowSpec.CancelLedgerEffect` | programs/anchor-escrow/src/lib.rs:62-77 | About `CancelLedger`, the refund then the close of `cancel`, signed by the supplied authority. Whenever both succeed: the vault is gone; the deposit account gained the amount; the total is unchanged; and every remaining vault is still held. |
| `EscrowSpec.ForeignVaultApproveBreaksBacking` | programs/anchor-escrow/src/lib.rs:255-256 | As written, `approve` for record A through the vault of record B leaves both records unbacked. |
| `EscrowSpec.SelfPayStrandsFunds` | programs/anchor-escrow/src/lib.rs:244-245 | As written, `approve` with the vault as the receiver moves nothing yet zeroes the slot. The record is then unbacked, and `cancel` through its vault fails. |
| `EscrowSpec.ForeignVaultCancelClosesVictimVault` | programs/anchor-escrow/src/lib.rs:195-196 | As written, `cancel` of record A through the vault of record B refunds A from B's vault and closes it. A's own vault keeps its tokens. |
| `EscrowSpec.SignerVaultCancelStrandsVault` | programs/anchor-escrow/src/lib.rs:195-198 | As written, `cancel` through a decoy account owned by the initializer, with the initializer as `vault_authority`, succeeds. It refunds the initializer's own tokens and closes the decoy, while the real vault keeps every unpaid token. |
| `EscrowSpec.DonationBlocksCancel` | programs/anchor-escrow/src/lib.rs:62-77 | As written, after any outside transfer of a nonzero amount into a backed record's vault, the record is no longer backed and `cancel` through that vault fails. |
| `EscrowSpec.ApproveCheckBound` | programs/anchor-escrow/src/lib.rs:240-261 | The corrected checks of `approve` pass exactly when: the program's checks pass; the vault is the record's own; the authority is the program's vault authority; and the receiver is not held by the vault authority. A failed program check is reported first. |
| `EscrowSpec.BoundApproveKeepsAllBacked` | programs/anchor-escrow/src/lib.rs:113-120 | Under the corrected checks, a payout keeps the paying record backed and every other backed record backed. |
| `EscrowSpec.CancelCheckBound` | programs/anchor-escrow/src/lib.rs:191-207 | The corrected checks of `cancel` pass exactly when the program's checks pass, the vault is the record's own, and the authority is the program's vault authority. A failed program check is reported first. |
| `EscrowSpec.BoundCancelKeepsOthersBacked` | programs/anchor-escrow/src/lib.rs:57-80 | Under the corrected checks, cancelling a record whose deposit account is not a vault leaves every other backed record backed, whatever amount is refunded. |
| `EscrowSpec.SweepRefunds` | programs/anchor-escrow/src/lib.rs:62-77 | The corrected refund returns the vault's whole balance. It cannot fail while the vault is the authority's and the deposit account (not a vault) exists, is of the vault's mint and has room, whatever was sent into the vault. It returns that balance and removes the vault. On a backed record the balance is the sum of the slots, so it matches the program's refund. |
| `Escrow.EscrowState.Store` | programs/anchor-escrow/src/lib.rs:27-34 | Writes every field of the record, including the five amounts into the array. |
| `Escrow.InitAdmin` | programs/anchor-escrow/src/lib.rs:13-18 | It succeeds exactly when the record is at the address derived from `"admin"` and no program account exists there. It then marks that address in use and stores both administrator keys. On failure nothing changes. |
| `Escrow.InitAdminTwice` | programs/anchor-escrow/src/lib.rs:139-146 | Two `init_admin` calls never both succeed, whatever record object the second is handed. After a first success the second fails with `AlreadyInUse`, or `SeedsMismatch` when handed another address. The keys of the first call stay. |
| `Escrow.Initialize` | programs/anchor-escrow/src/lib.rs:22-55 | A failed check is returned unchanged; the record address counts as taken when a program account exists there. After the checks, it succeeds exactly when `InitializeLedger` succeeds. On success the address becomes in use, the record holds exactly the given seed, initializer, deposit account and five amounts, and the ledger is the result of `InitializeLedger` for the sum. On failure the addresses in use, the ledger and the record are as before. |
| `Escrow.Approve` | programs/anchor-escrow/src/lib.rs:108-129 | A failed check is returned unchanged, and success implies every guard held. After the checks, it succeeds exactly when the transfer of the indexed slot from the supplied vault to the receiver, signed by the supplied authority, succeeds. It then pays exactly that amount and zeroes exactly that slot. It keeps the record backed when paying through its own vault to another account, and keeps every vault held. On failure nothing changes. |
| `Escrow.ApproveTwice` | programs/anchor-escrow/src/lib.rs:252 | A slot is paid at most once: after a successful `approve`, the same `approve` fails with `EmptyMilestone`. |
| `Escrow.Cancel` | programs/anchor-escrow/src/lib.rs:57-80 | A failed check is returned unchanged, and success implies every guard held. After the checks, it succeeds exactly when the sum fits `u64` and `CancelLedger` succeeds for the supplied vault and authority. The record's address is then freed, the vault is gone, and the ledger is the result of `CancelLedger`. On failure nothing changes. |
| `Escrow.ApproveChecked` | programs/anchor-escrow/src/lib.rs:240-261 | `approve` under the corrected checks. Its failures are those checks' errors. A payout goes only through the record's own vault, signed by the vault authority. It keeps this record backed and every other backed record backed. |
| `Escrow.CancelChecked` | programs/anchor-escrow/src/lib.rs:191-210 | `cancel` under the corrected checks, refunding the vault's whole balance. It closes only the record's own vault, signed by the vault authority. It succeeds whenever the checks pass, the vault is the authority's, and the deposit account (not a vault) is of its mint and has room. It leaves every other backed record backed. |
| `Walkthrough.Open` | tests/anchor-escrow.ts:153-188 | Initializing with [50, 150, 200, 50, 50] from a deposit account of 500 succeeds. It stores exactly those fields, empties the deposit account, and creates a vault of 500 owned by the vault authority. |
| `Walkthrough.Pay` | tests/anchor-escrow.ts:190-225 | An `approve` by the initializer through the escrow's vault moves exactly the slot's amount from the vault to the taker, and zeroes that slot. |
| `Walkthrough.PayTwoMilestones` | tests/anchor-escrow.ts:190-225 | After `approve(0)` the taker holds 50. After `approve(1)` it holds 200, the vault 300, and the slots are [0, 0, 200, 50, 50]. |
| `Walkthrough.OpenAndCancel` | tests/anchor-escrow.ts:227-277 | A second escrow of 500, once cancelled, returns all 500 to the deposit account. Its vault is gone and the record is closed. |

## Left out

- Cross-program invocation plumbing (lib.rs:289-368) is not modelled as code. The CPI context builders, signer seeds and bumps are replaced by the token instruction each one invokes, with the signing authority as a parameter.
- Address derivation (`find_program_address`) is left out. Derived addresses are constructors of `Pubkey`. The model assumes they never collide with each other or with key-pair addresses.
- Signatures are left out: the signer is a parameter. The vault authority (a program address) never signs a handler.
- The `vault_authority` passed to `approve` and `cancel` is taken to have signed, whatever it is. On the chain it signs only when it is the program's authority or a signer of the transaction, and any key may sign a transaction.
- Rent, `space()`, lamports are left out:
  - the payer of created accounts
  - the lamports returned when `escrow_state` is closed (`close = initializer`)
  - the discriminator and the account sizes

  None of these affects tokens.
- The `mint` account is not checked to be a mint: mints are not entries of the token ledger.
- The token program's delegates, freeze state and close authority are left out. So are its native-token accounts.
- The commented-out `exchange` instruction (lib.rs:82-106, 212-236) is not part of the program and is not modelled.
- The Anchor framework reports every failed `constraint` with one error code. The model names each failed check with its own `Error` constructor, so a different error can be reported for the same abort.
- The overflow of the five-amount sum (lib.rs:47-51, 66-70, 172) is modelled as an abort (`ArithmeticOverflow`), as checked arithmetic panics. A build without overflow checks would wrap instead; `u64` wrap-around is not modelled.
- `Escrow.Initialize`: on failure it restores every value in the record, as observed through `View()`. It does not state `unchanged` of the heap object.
- `Escrow.Approve`, `Escrow.Cancel` and `Escrow.Initialize` assume that the `EscrowState` object passed is the one holding the data at its address. Two objects for the same address could hold different data; the model does not rule this out.
- `Escrow.CancelChecked`: the new balance of the deposit account is given through `CancelLedger`, not restated. It follows from `CancelLedgerEffect`.
- `Escrow.Approve`: the new balance of the receiver and the token total are not restated in its `ensures`. They follow from `ApplyTransfer`'s contract and `TransferConserves`.
- `Escrow.Cancel`: the token total is not restated in its `ensures`. `CancelLedgerEffect` states it for every successful `cancel`.

## Findings

| source | as written | input that shows it | evidently intended | confidence | as-written member | corrected member |
|---|---|---|---|---|---|---|
| programs/anchor-escrow/src/lib.rs:255-256 | `approve` takes any `vault` account, and every vault is owned by the same vault authority. | Two live escrows A and B with nonzero slot 0 in A. `approve(0)` for A, signed by A's initializer, with B's vault. | The vault is the one at `["vault", escrow_state.random_seed]`. | not executed | `EscrowSpec.ForeignVaultApproveBreaksBacking` | `Escrow.ApproveChecked` |
| programs/anchor-escrow/src/lib.rs:195-196 | `cancel` takes any `vault` account and closes it. | Escrows A and B with equal unpaid sums. `cancel` of A, signed by A's initializer, with B's vault. | The vault is the one at `["vault", escrow_state.random_seed]`. | not executed | `EscrowSpec.ForeignVaultCancelClosesVictimVault` | `Escrow.CancelChecked` |
| programs/anchor-escrow/src/lib.rs:244-245 | `approve` accepts the vault itself as `taker_receive_token_account`. The transfer moves nothing, yet the slot is zeroed. | `approve(0)` on an escrow with slot 0 = 50, with the receiver equal to the vault. | The receiver is an account the vault authority does not hold. | not executed | `EscrowSpec.SelfPayStrandsFunds` | `Escrow.ApproveChecked` |
| programs/anchor-escrow/src/lib.rs:197-198 | `cancel` takes any `vault_authority` and passes it to the token program as the authority. The program's own signature is added as well, but is not required. | An escrow with an unpaid sum S. Its initializer holds an account X of the same mint with S tokens. `cancel`, signed by the initializer, with `vault` = X and `vault_authority` = the initializer. | `vault_authority` is the address derived from `"authority"`, and the vault is the record's own. | not executed | `EscrowSpec.SignerVaultCancelStrandsVault` | `Escrow.CancelChecked` |
| programs/anchor-escrow/src/lib.rs:66-70 | `cancel` refunds the sum of the unpaid slots, then closes the vault, which must be empty. | A backed escrow whose vault receives 1 token by an ordinary transfer from any holder of the mint. `cancel` then leaves 1 token in the vault, and closing it fails. | The refund is the vault's whole balance, so the vault can always be closed. | not executed | `EscrowSpec.DonationBlocksCancel` | `Escrow.CancelChecked` |
