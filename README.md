# Escrow program model

A Dafny model of a Solana escrow program built with Anchor. A *maker* offers
`amount` tokens of `mint_a` in exchange for `receive_amount` tokens of
`mint_b`. Three instructions handle the trade:

- `make` creates an escrow record at a program-derived address (PDA).
  - The address is `["escrow", maker, seed.to_le_bytes()]` with its canonical bump.
  - It also creates a vault, the associated token account (ATA) of the escrow for `mint_a`.
  - It then deposits `amount` from the maker's `mint_a` account into the vault.
- `take` is called by a *taker*.
  - It pays the maker `receive_amount` of `mint_b`.
  - It releases the whole vault to the taker.
  - It closes the vault.
- `refund` returns the whole vault to the maker and closes the vault.

Before any handler runs, Anchor validates every account of an instruction:
signers, `init`/`init_if_needed`, `has_one`, `seeds`/`bump` and `associated_token`.
If any step fails, the runtime discards the whole instruction.

Layout, one module per file:

- `solana.dfy` (`Solana`): `u8`/`u64` and account keys.
  - Keys: wallets, program addresses, associated token addresses.
  - Derivation is injective, and only wallets can sign.
  - Also the errors and `Result`.
- `escrow_record.dfy` (`EscrowRecord`):
  - the `EscrowState` record and `INIT_SPACE`;
  - the little-endian `u64` seed bytes with their round trip;
  - the escrow address.
- `token.dfy` (`Token`): the token program as the escrow uses it.
  - Balances keyed by (mint, owner).
  - `transfer_checked`, `close_account`, `init` and `init_if_needed`.
  - The supply of a mint, conserved by each of these.
- `ledger.dfy` (`Ledger`): the on-chain state.
  - It is a class with fields `mints`, `tokens` and `escrows`.
  - Its methods perform the token calls and account writes in place, each proved against the pure function in `Token`.
- `make.dfy`, `take.dfy`, `refund.dfy`: each instruction's accounts, its account validation and its handler steps.
  - Each comes as a pure step function and as an imperative method on the `Ledger` proved against it.
- `program.dfy` (`EscrowProgram`): the entry points `make`, `take` and `refund`.
  - `MakeTx`, `TakeTx` and `RefundTx` give the all-or-nothing meaning.
  - `Make`, `Take` and `Refund` run the steps on a `Ledger` and roll back on error.
- `make_properties.dfy`, `take_properties.dfy`, `refund_properties.dfy`, `lifecycle.dfy`: what each instruction, and sequences of them, guarantee.

Modelling choices:

- **Addresses.** A key is a datatype. Distinct constructors or arguments give distinct addresses. This stands for the collision resistance of SHA-256 address derivation. A derived address is never a `Wallet`, so it can never sign a transaction.
- **Record layout.** The record's Borsh encoding writes each integer little-endian at its width and each key as its 32 raw bytes. Keys are abstract here, so the record encoding takes their byte form as a parameter, required to be 32 bytes for every key.
- **Canonical bump.** The bump that `find_program_address` returns is a fixed but arbitrary function `bumpOf` of the `Ledger`.
- **Token accounts.**
  - A token account exists when its (mint, owner) key is in `tokens`.
  - A token account always sits at its ATA address. The instructions only use ATAs.
- **Take's handler.** `lib.rs` calls `deposit()` and `withdraw_and_close_vault()`. Neither matches the methods in `take.rs`. The model follows the evident intent:
  - `deposit(escrow.receive_amount, mint_b.decimals)`;
  - then `withdraw`;
  - then `close_vault`.
- **Take's seeds.** The constraint's `seeds` use an instruction argument `seed`, and `withdraw`/`close_vault` read `escrow.seeds`. Neither exists. The model uses the record's own `seed` in all three places, as `refund` does.
- **Take binds `mint_b`.** The escrow account's constraints in `take.rs` bind only `mint_a` and the maker (see Findings). The model's `take` (`TakeInstruction.ValidateAccounts`, used by `EscrowProgram.TakeTx` and `EscrowProgram.Take`) adds `has_one = mint_b`. Every `TakeProperties` and `Lifecycle` property is about this corrected `take`; only `ValidateAccountsAsWritten` and the counterexample model the checks as written.
- **The record survives.** Neither `take` nor `refund` has a `close` constraint on the escrow record. Only the vault is closed. As a consequence, the same maker can never again `make` with the same seed.
- **Argument order.** `make`'s arguments are `(seed, receive_amount, amount)`, as `lib.rs` declares them. The test script passes `(seed, amount, receive_amount)`, but both values are equal there.
- **Vault amount.** `self.vault.amount` is a value read when the instruction starts. In `take`, `deposit` cannot touch the vault: the vault belongs to a derived address, and the taker is a wallet. The cached value therefore equals the balance at `withdraw`, and the model reads the balance.

## Model

| member | source | states |
|---|---|---|
| Solana.Derive | programs/escrow/src/instructions/make.rs:34-40 | a program-derived address is never a wallet key, so it cannot sign a transaction |
| Solana.DeriveInjective | programs/escrow/src/instructions/make.rs:38-39 | equal derived addresses come from equal tag, base, seed bytes and bump |
| EscrowRecord.RecordEncodingLength | programs/escrow/src/state/escrow.rs:5-12 | every record, whatever its contents, encodes to the sum of its six fields' widths (8, 1, 32, 32, 8, 32), given 32-byte keys |
| EscrowRecord.RecordEncodingFields | programs/escrow/src/state/escrow.rs:5-12 | in every record's 113-byte encoding each field sits at its declaration-order offset and decodes back to the record's value |
| EscrowRecord.InitSpaceCoversRecord | programs/escrow/src/state/escrow.rs:14-16 | `INIT_SPACE` equals the 8-byte discriminator plus the length of any record's encoding, and equals 121 |
| EscrowRecord.LeBytes | programs/escrow/src/instructions/make.rs:38 | the little-endian encoding to `n` bytes has length `n` |
| EscrowRecord.LeBytesRoundTrip | programs/escrow/src/instructions/make.rs:38 | decoding the `n` little-endian bytes of any `x < 256^n` gives back `x` |
| EscrowRecord.Le8 | programs/escrow/src/instructions/make.rs:38 | `seed.to_le_bytes()` is 8 bytes long |
| EscrowRecord.Le8RoundTrip | programs/escrow/src/instructions/make.rs:38 | the 8 seed bytes decode back to the seed, for every u64 |
| EscrowRecord.Le8Injective | programs/escrow/src/instructions/make.rs:38 | distinct seeds give distinct seed bytes |
| EscrowRecord.EscrowAddressInjective | programs/escrow/src/instructions/make.rs:34-40 | one escrow address per (maker, seed, bump): equal addresses imply equal maker, seed and bump |
| EscrowRecord.EscrowAddress | programs/escrow/src/instructions/make.rs:34-40 | the record's address, derived from `"escrow"`, the maker and the seed bytes, is neither the maker's key nor any wallet, so the vault is never the maker's own account |
| Token.AtaAddressInjective | programs/escrow/src/instructions/make.rs:43-50 | an associated token address determines its mint and owner |
| Token.Transfer | programs/escrow/src/instructions/make.rs:77-85 | `transfer_checked` succeeds only between two existing accounts whose source covers the amount |
| Token.Close | programs/escrow/src/instructions/take.rs:120-144 | `close_account` succeeds only on an existing empty account, and removes exactly that account, leaving every other account's balance as it was |
| Token.Create | programs/escrow/src/instructions/make.rs:43-50 | `init` of a token account succeeds exactly when it is missing, and adds exactly it, at zero, leaving every existing account's balance as it was |
| Token.CreateIfNeededOpens | programs/escrow/src/instructions/make.rs:25-32 | `init_if_needed` leaves the account existing with its former balance (zero if new), and every other account as it was |
| Token.TransferMoves | programs/escrow/src/instructions/make.rs:75-86 | a successful `transfer_checked` between two accounts debits `from` and credits `to` by exactly `amount`; every other account and the set of accounts are unchanged |
| Token.TransferAuthorised | programs/escrow/src/instructions/make.rs:77-85 | a successful transfer was signed by the source account's owner, named an existing mint at its own decimals, and was covered by the balance |
| Token.DerivedOwnerNeedsProgramSignature | programs/escrow/src/instructions/take.rs:98-118 | no set of wallet signatures can transfer out of, or close, an account owned by a derived address |
| Token.TransferConservesSupply | programs/escrow/src/instructions/make.rs:85 | a transfer leaves the total amount of every mint unchanged |
| Token.CloseConservesSupply | programs/escrow/src/instructions/take.rs:120-144 | closing an account leaves every mint's total unchanged, since only empty accounts close |
| Token.CreateConservesSupply | programs/escrow/src/instructions/take.rs:29-56 | creating an account, with `init` or `init_if_needed`, leaves every mint's total unchanged |
| Ledger.Ledger.Restore | programs/escrow/src/lib.rs:23-44 | the runtime's rollback: the ledger is back to the saved state |
| Ledger.Ledger.TransferChecked | programs/escrow/src/instructions/make.rs:75-86 | the in-place debit and credit returns the pure transfer's outcome; on success the balances are the pure result, otherwise unchanged; nothing else changes |
| Ledger.Ledger.CloseAccount | programs/escrow/src/instructions/take.rs:120-144 | the in-place close returns the pure close's outcome and removes exactly that account on success |
| Ledger.Ledger.CreateAccount | programs/escrow/src/instructions/make.rs:43-50 | `init` of a token account fails on an existing account and otherwise opens it at zero |
| Ledger.Ledger.CreateAccountIfNeeded | programs/escrow/src/instructions/make.rs:25-32 | `init_if_needed` opens the account at zero only when it is missing |
| Ledger.Ledger.AllocateEscrow | programs/escrow/src/instructions/make.rs:34-41 | `init` of the escrow account succeeds exactly when no account is at the address, and then places a zeroed record there |
| Ledger.Ledger.WriteEscrow | programs/escrow/src/instructions/make.rs:64-71 | `set_inner` replaces the record at the address and changes nothing else |
| MakeInstruction.ValidateAccounts | programs/escrow/src/instructions/make.rs:11-55 | a passed account phase keeps the mints and leaves an escrow account at the given address |
| MakeInstruction.InitEscrowStateStep | programs/escrow/src/instructions/make.rs:58-73 | `set_inner` writes a record holding the call's seed, bump, receive amount, mints and maker at the escrow address, adds no other record, leaves every other record as it was, and changes no token account or mint |
| MakeInstruction.DepositStep | programs/escrow/src/instructions/make.rs:75-87 | the deposit changes no record and no mint |
| MakeInstruction.ValidateMakeAccounts | programs/escrow/src/instructions/make.rs:11-55 | the in-place account phase uses the canonical bump, returns the pure validation's outcome, and on success leaves its state |
| MakeInstruction.InitEscrowState | programs/escrow/src/instructions/make.rs:58-73 | the in-place `init_escrow_state` leaves exactly the state the pure step gives |
| MakeInstruction.Deposit | programs/escrow/src/instructions/make.rs:75-87 | the in-place deposit returns the pure step's outcome and leaves its state, or no change on failure |
| MakeProperties.MakeSucceedsIff | programs/escrow/src/instructions/make.rs:11-55 | `make` succeeds if and only if: the maker signed; both mints exist; every account is at its required address; neither record nor vault exists; the maker holds at least `amount`. No check is made on the amounts or on the two mints being distinct |
| MakeProperties.MakeFailsIfRecordExists | programs/escrow/src/instructions/make.rs:34-40 | an existing record at the derived address for (maker, seed) makes `make` fail |
| MakeProperties.MakeFailsIfVaultExists | programs/escrow/src/instructions/make.rs:43-50 | an existing vault for the derived address makes `make` fail |
| MakeProperties.MakeFailsIfUnderfunded | programs/escrow/src/instructions/make.rs:85 | a maker holding less than `amount` of `mint_a` cannot make |
| MakeProperties.MakeDecimalsNeverRejected | programs/escrow/src/instructions/make.rs:85 | `make` never fails with a decimals mismatch, since it passes the mint's own decimals |
| MakeProperties.MakeStoresRecord | programs/escrow/src/instructions/make.rs:64-71 | the stored record has the call's seed and receive amount, the given mints, the signer as maker and the canonical bump, at the derived address; no other record and no mint changes |
| MakeProperties.MakeMovesAmount | programs/escrow/src/instructions/make.rs:25-32 | the maker's `mint_a` account (opened at zero if missing) loses exactly `amount`; the new vault holds exactly `amount`; every other token account is unchanged |
| MakeProperties.MakeConservesSupply | programs/escrow/src/instructions/make.rs:75-86 | `make` leaves the total of every mint unchanged |
| MakeProperties.MakeKeepsRecordsAtOwnAddresses | programs/escrow/src/instructions/make.rs:34-41 | `make` keeps every record at the address its own maker, seed and bump derive |
| TakeInstruction.ValidateAccountsAsWritten | programs/escrow/src/instructions/take.rs:15-73 | the account checks as written: on success the record exists, both mints exist and no record or mint changed |
| TakeInstruction.ValidateAccounts | programs/escrow/src/instructions/take.rs:58-66 | the corrected account checks (with `has_one = mint_b`) establish the same facts |
| TakeInstruction.DepositStep | programs/escrow/src/instructions/take.rs:83-95 | the taker's payment changes no record and no mint |
| TakeInstruction.WithdrawStep | programs/escrow/src/instructions/take.rs:98-118 | the withdrawal changes no record and no mint |
| TakeInstruction.CloseVaultStep | programs/escrow/src/instructions/take.rs:120-144 | closing the vault changes no record and no mint |
| TakeInstruction.ValidateTakeAccounts | programs/escrow/src/instructions/take.rs:15-73 | the in-place account phase returns the pure validation's outcome and on success leaves its state |
| TakeInstruction.Deposit | programs/escrow/src/instructions/take.rs:83-95 | the in-place payment returns the pure step's outcome and state, or no change on failure |
| TakeInstruction.Withdraw | programs/escrow/src/instructions/take.rs:98-118 | the in-place withdrawal returns the pure step's outcome and state, or no change on failure |
| TakeInstruction.CloseVault | programs/escrow/src/instructions/take.rs:120-144 | the in-place close returns the pure step's outcome and state, or no change on failure |
| TakeProperties.ValidatedTake | programs/escrow/src/instructions/take.rs:15-73 | (corrected `take`) what a passed `take` account phase establishes. The taker signed. The record binds both mints and the maker, at its derived address. The vault exists at its ATA address, and the taker's two accounts and the maker's `mint_b` account are given at their ATA addresses. Only the parties' accounts were opened |
| TakeProperties.TakeRequiresBinding | programs/escrow/src/instructions/take.rs:58-62 | (corrected `take`) `take` fails unless the record's `mint_a`, `mint_b` and maker match the accounts given; the source itself binds only `mint_a` and the maker |
| TakeProperties.TakeRequiresDerivedAddress | programs/escrow/src/instructions/take.rs:63-64 | `take` fails unless the record sits at the address its maker, seed and bump derive |
| TakeProperties.TakeRequiresPartyAccounts | programs/escrow/src/instructions/take.rs:29-56 | `take` fails unless the taker's two token accounts and the maker's `mint_b` account are their ATAs |
| TakeProperties.TakeRequiresVault | programs/escrow/src/instructions/take.rs:68-73 | `take` fails unless the vault is the existing ATA of `mint_a` and the escrow |
| TakeProperties.TakeFailsIfUnderfunded | programs/escrow/src/instructions/take.rs:83-95 | a taker holding less than the receive amount of `mint_b` cannot take |
| TakeProperties.WithdrawEmptiesVault | programs/escrow/src/instructions/take.rs:98-118 | after `withdraw` the vault holds 0, and the taker has gained exactly the vault's previous balance |
| TakeProperties.CloseVaultNeedsEmptyVault | programs/escrow/src/instructions/take.rs:120-144 | `close_vault` succeeds only on an existing empty vault, and removes exactly it |
| TakeProperties.VaultCallsSignedBySeeds | programs/escrow/src/instructions/take.rs:98-141 | `withdraw` and `close_vault` succeed only when the record's signer seeds derive the vault's owner |
| TakeProperties.TakeSucceedsIff | programs/escrow/src/instructions/take.rs:15-144 | `take` succeeds if and only if the accounts pass, the taker covers the receive amount, the maker's `mint_b` account can absorb it (unless it is the taker's own), and the taker's `mint_a` account, after paying when it is the same account, can absorb the whole vault |
| TakeProperties.TakeEffect | programs/escrow/src/lib.rs:38-44 | for distinct parties and mints: the taker's `mint_b` account is debited by the receive amount and the maker's credited by the same; the taker's `mint_a` account gains the whole vault; the three accounts exist afterwards; the vault is removed; no record or mint changes |
| TakeProperties.TakePaysRecordedMint | programs/escrow/src/instructions/take.rs:58-66 | a successful `take` credits the receive amount to the maker's account in the `mint_b` the record names |
| TakeProperties.TakeTouchesOnlyItsAccounts | programs/escrow/src/instructions/take.rs:15-144 | every token account other than the taker's two, the maker's `mint_b` account and the vault is unchanged |
| TakeProperties.TakeClosesVault | programs/escrow/src/instructions/take.rs:120-144 | a successful `take` removes the vault it was given, and keeps every record and mint |
| TakeProperties.TakeConservesSupply | programs/escrow/src/lib.rs:38-44 | `take` leaves the total of every mint unchanged |
| TakeProperties.TakeAsWrittenAcceptsForeignMintB | programs/escrow/src/instructions/take.rs:58-66 | with the constraints as written, a taker naming a different `mint_b` passes validation and receives the vault, while the maker's account in the recorded `mint_b` stays empty |
| RefundInstruction.ValidateAccounts | programs/escrow/src/instructions/refund.rs:14-45 | a passed `refund` account phase means the record, `mint_a`, the maker's `mint_a` account and the vault all exist |
| RefundInstruction.RefundAndCloseVaultStep | programs/escrow/src/instructions/refund.rs:48-84 | the refund changes no record and no mint |
| RefundInstruction.RefundAndCloseVault | programs/escrow/src/instructions/refund.rs:48-84 | the in-place refund returns the pure step's outcome and on success leaves its state |
| RefundProperties.RefundOnlyByStoredMaker | programs/escrow/src/instructions/refund.rs:15-29 | `refund` fails unless the maker stored in the record signed |
| RefundProperties.RefundRequiresBinding | programs/escrow/src/instructions/refund.rs:26-32 | `refund` fails unless the record binds `mint_a` and the maker and sits at its derived address |
| RefundProperties.RefundRequiresAccounts | programs/escrow/src/instructions/refund.rs:19-40 | `refund` fails unless the maker's `mint_a` account and the vault already exist at their ATA addresses |
| RefundProperties.RefundSucceedsIff | programs/escrow/src/instructions/refund.rs:14-84 | `refund` succeeds if and only if the accounts pass and the maker's balance can absorb the vault within a u64 |
| RefundProperties.RefundEffect | programs/escrow/src/instructions/refund.rs:59-81 | the maker's `mint_a` account gains exactly the vault's balance; the vault is removed; no other account, record or mint changes, so the record survives |
| RefundProperties.RefundConservesSupply | programs/escrow/src/instructions/refund.rs:59-81 | `refund` leaves the total of every mint unchanged |
| EscrowProgram.MakeTx | programs/escrow/src/lib.rs:23-32 | a successful `make` adds exactly one record, at an address that held none, and keeps the mints |
| EscrowProgram.TakeTx | programs/escrow/src/lib.rs:38-44 | (corrected `take`) a successful `take` names an existing record and changes no record and no mint |
| EscrowProgram.RefundTx | programs/escrow/src/lib.rs:34-36 | a successful `refund` names an existing record, changes no record and no mint, and removes the vault |
| EscrowProgram.TakeSteps | programs/escrow/src/lib.rs:38-44 | the `take` handler body changes no record and no mint |
| EscrowProgram.Make | programs/escrow/src/lib.rs:23-32 | runs `init_escrow_state` before `deposit`; the outcome is that of `MakeTx`; on failure the ledger is exactly as before |
| EscrowProgram.Take | programs/escrow/src/lib.rs:38-44 | pays the maker before releasing the vault; the outcome is that of `TakeTx`; on failure the ledger is exactly as before |
| EscrowProgram.Refund | programs/escrow/src/lib.rs:34-36 | exactly `refund_and_close_vault` after the account checks; on failure the ledger is exactly as before |
| Lifecycle.MakeThenTake | programs/escrow/src/lib.rs:23-44 | after `make` then `take` of that record, between distinct parties and mints: the maker has given `amount` of A and gained `receive_amount` of B; the taker has gained `amount` of A; the vault is gone |
| Lifecycle.TakeConsumesOnce | programs/escrow/src/instructions/take.rs:68-73 | from any ledger, after a successful `take` the next `take` or `refund` of the same record fails |
| Lifecycle.RefundConsumesOnce | programs/escrow/src/instructions/refund.rs:34-40 | from any ledger, after a successful `refund` the next `take` or `refund` of the same record fails |
| Lifecycle.MakeKeepsVaultClosed | programs/escrow/src/instructions/make.rs:11-55 | on a consistent ledger (records at their own addresses, makers are wallets) `make` keeps it consistent, keeps every existing record, and never reopens the closed vault of an existing record |
| Lifecycle.TakeKeepsVaultClosed | programs/escrow/src/instructions/take.rs:29-56 | on a consistent ledger `take` keeps it consistent, and none of its `init_if_needed` accounts is the closed vault of a record, since their owners are wallets |
| Lifecycle.RefundKeepsVaultClosed | programs/escrow/src/instructions/refund.rs:14-84 | on a consistent ledger `refund` keeps it consistent and never reopens a closed vault |
| Lifecycle.RunKeepsVaultClosed | programs/escrow/src/lib.rs:23-44 | after any sequence of calls, each rolled back if it fails, a consistent ledger stays consistent, a record stays as it was and its closed vault stays closed |
| Lifecycle.ClosedVaultBlocks | programs/escrow/src/instructions/take.rs:68-73 | a record whose vault is closed can be neither taken nor refunded |
| Lifecycle.TakeConsumesForever | programs/escrow/src/instructions/take.rs:120-144 | from a consistent ledger, after a successful `take` no `take` or `refund` of the same record succeeds after any sequence of further make/take/refund calls |
| Lifecycle.RefundConsumesForever | programs/escrow/src/instructions/refund.rs:70-81 | from a consistent ledger, after a successful `refund` no `take` or `refund` of the same record succeeds after any sequence of further make/take/refund calls |
| Lifecycle.TakeRepeatsOnRecreatedVault | programs/escrow/src/instructions/take.rs:58-66 | the record survives `take`, so once the vault is re-created at zero the same `take` succeeds again: the taker pays the receive amount a second time and receives nothing of `mint_a` |
| Lifecycle.RunKeepsConsistent | programs/escrow/src/instructions/make.rs:34-41 | every sequence of calls keeps the ledger consistent, so every ledger reached from one without records is |
| Lifecycle.SeedSlotOutlivesTake | programs/escrow/src/instructions/take.rs:58-66 | after `make` and any `take`, the same maker's `make` with the same seed fails |
| Lifecycle.SeedSlotOutlivesRefund | programs/escrow/src/instructions/refund.rs:26-33 | after `make` and any `refund`, the same maker's `make` with the same seed fails |
| Lifecycle.InstructionsKeepRecordsAtOwnAddresses | programs/escrow/src/instructions/make.rs:34-41 | every successful instruction keeps each record at the address its own fields derive |

## Left out

- Lamports and rent are not modelled. This covers the rent that `init` charges the payer and the rent a closed vault returns; `close_vault` sends it to the taker and `refund` to the maker. The model does not record a close's destination.
- The `token_program` constraints are not modelled: the mints and ATAs under a given token program, the token-2022 interface, and the associated token and system programs. Token accounts are assumed to be owned by the one token program.
- Freeze authority, delegates and mint authority are not modelled, because the program never uses them.
- Anchor's account (de)serialisation and discriminators are not modelled. `Signer`, `SystemAccount` and `InterfaceAccount` are not modelled as wrappers, only their effects.
- The exact error codes are not modelled. A failure carries the Anchor or token-program error named for the failing check, so the model states *that* an instruction fails but not the runtime's exact numeric code. For two simultaneously failing checks, the one reported may follow a different order from the runtime's.
- SHA-256 and the off-curve bump search are not modelled. The derivation is an injective constructor, and the canonical bump is the abstract `bumpOf`.
- Concurrency, transaction ordering and retries are not modelled. Calls are single and sequential.
- The associated-token program's `create`, open to any payer, is not modelled as a call. Lifecycle.TakeRepeatsOnRecreatedVault models its effect on the vault directly.
- Cross-program invocation is not modelled: the program is invoked directly by a transaction, so every `Signer` is a wallet. A program invoking it through `invoke_signed` could sign for one of its own derived addresses; the model has no other program, and `Derive` carries no program id.
- `programs/escrow/src/instructions/mod.rs` is only re-exports. The `constants` and `error` modules are not part of this model.
- The test script is not modelled. It drives a validator over RPC.
- Four defects that would stop the program building or running as written are modelled as evidently intended: take's escrow account has `payer = taker` without `init` (take.rs:62); take's vault lacks `mut` although `withdraw` and `close_vault` change it (take.rs:68-73); `init_escrow_state` spells its argument `recieve_amount` (make.rs:61,69); and refund carries `#[instruction(seed: u64)]` although `refund` takes no argument (refund.rs:13), so Anchor would try to read a `u64` that the instruction data does not hold. The model assumes the program builds and that `refund` reads no argument.
- TakeProperties.TakeEffect: stated for distinct taker and maker and distinct `mint_a` and `mint_b`. The source accepts the equal cases, where its accounts coincide; TakeSucceedsIff covers them for success, and TakeTouchesOnlyItsAccounts for the other accounts.
- Lifecycle.MakeThenTake: stated for distinct parties and mints, for the same reason.
- Lifecycle.TakeConsumesForever and Lifecycle.RefundConsumesForever: hold from a consistent ledger (every record at its own address, every maker a wallet; MakersAreWallets stands for "no maker is one of this program's own addresses", which holds because derived addresses cannot sign a direct call). Without that invariant a record whose maker is another record's address could reopen that record's vault through `take`'s `init_if_needed`; RunKeepsConsistent shows every ledger reached from one without records is consistent. The calls are only this program's `make`, `take` and `refund`: neither instruction closes the record (take.rs:58-66, refund.rs:26-33), so a vault re-created through the associated-token program's `create` reopens it, and a second `take` then succeeds with its taker paying the receive amount for an empty vault (Lifecycle.TakeRepeatsOnRecreatedVault).
- TakeProperties.TakePaysRecordedMint: stated for distinct taker and maker. When they coincide the maker's `mint_b` account is the taker's own, and TakeSucceedsIff covers that case.
- MakeInstruction.ValidateMakeAccounts says nothing of the partial state after a failure, because the runtime rollback in EscrowProgram.Make discards it.
- TakeInstruction.ValidateTakeAccounts says nothing of the partial state after a failure, for the same reason (EscrowProgram.Take).
- RefundInstruction.RefundAndCloseVault says nothing of the partial state after a failure, for the same reason (EscrowProgram.Refund).

## Findings

| source | as written | input that shows it | evidently intended | confidence | as-written member | corrected member |
|---|---|---|---|---|---|---|
| programs/escrow/src/instructions/take.rs:58-66 | the escrow account's constraints are `has_one = mint_a` and `has_one = maker`; `mint_b` is never tied to the record | record asks for 50 of mint 11; taker passes mint 12 as `mint_b` and holds 50 of it; the vault's 100 of `mint_a` go to the taker while the maker gets nothing of mint 11 | `take` also requires `escrow.mint_b == mint_b`, so the maker is paid in the mint the record names | not executed | TakeProperties.TakeAsWrittenAcceptsForeignMintB | TakeProperties.TakePaysRecordedMint |
