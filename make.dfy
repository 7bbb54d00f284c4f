/**
 * The `Make` instruction's accounts and steps: Anchor's checks and account
 * creation, `init_escrow_state` and `deposit`.
 */
module MakeInstruction {
  import opened Solana
  import opened Token
  import opened EscrowRecord
  import opened Ledger

  /** The accounts a `make` call names, by address, in field order. */
  datatype MakeAccounts = MakeAccounts(
    maker: Pubkey,
    mintA: Pubkey,
    mintB: Pubkey,
    makerAtaA: Pubkey,
    escrow: Pubkey,
    vault: Pubkey)

  /** The maker's token account for `mint_a`. */
  function MakerKeyA(acc: MakeAccounts): TokenKey { TokenKey(acc.mintA, acc.maker) }

  /** The vault: the escrow's token account for `mint_a`. */
  function VaultKey(acc: MakeAccounts): TokenKey { TokenKey(acc.mintA, acc.escrow) }

  /** The bump `make` uses and stores: the runtime's canonical bump for the escrow seeds. */
  function MakeBump(bumpOf: (Pubkey, seq<u8>) -> u8, acc: MakeAccounts, seed: u64): u8
  {
    bumpOf(acc.maker, Le8(seed))
  }

  /**
   * Anchor's validation of the `Make` accounts in field order, with the
   * accounts it creates: the maker's `mint_a` account if missing
   * (`init_if_needed`), the escrow record at its derived address and the
   * vault (both `init`).
   */
  function ValidateAccounts(s: State, acc: MakeAccounts, signers: set<Signer>, seed: u64, bump: u8): (r: Result<State>)
    ensures r.Ok? ==> r.value.mints == s.mints && acc.mintA in s.mints && acc.escrow in r.value.escrows
  {
    if acc.maker !in signers then Err(AccountNotSigner)
    else if acc.mintA !in s.mints || acc.mintB !in s.mints then Err(AccountNotInitialized)
    else if acc.makerAtaA != AtaAddress(MakerKeyA(acc)) then Err(ConstraintAssociated)
    else
      var t := CreateIfNeeded(s.tokens, MakerKeyA(acc));
      if acc.escrow != EscrowAddress(acc.maker, seed, bump) then Err(ConstraintSeeds)
      else if acc.escrow in s.escrows then Err(AccountAlreadyInUse)
      else if acc.vault != AtaAddress(VaultKey(acc)) then Err(ConstraintAssociated)
      else if VaultKey(acc) in t then Err(AccountAlreadyInUse)
      else Ok(State(s.mints, t[VaultKey(acc) := 0], s.escrows[acc.escrow := ZeroedRecord]))
  }

  /** The record `init_escrow_state` writes. */
  function NewRecord(acc: MakeAccounts, seed: u64, receiveAmount: u64, bump: u8): EscrowState
  {
    EscrowState(seed, bump, acc.mintA, acc.mintB, receiveAmount, acc.maker)
  }

  /** `init_escrow_state`: fill the escrow account from the call. */
  function InitEscrowStateStep(s: State, acc: MakeAccounts, seed: u64, receiveAmount: u64, bump: u8): (r: State)
    ensures r.mints == s.mints && r.tokens == s.tokens
    ensures acc.escrow in r.escrows && r.escrows.Keys == s.escrows.Keys + {acc.escrow}
    ensures forall a :: a in s.escrows && a != acc.escrow ==> r.escrows[a] == s.escrows[a]
    ensures var e := r.escrows[acc.escrow];
      && e.seed == seed && e.bump == bump && e.receiveAmount == receiveAmount
      && e.mintA == acc.mintA && e.mintB == acc.mintB && e.maker == acc.maker
  {
    State(s.mints, s.tokens, s.escrows[acc.escrow := NewRecord(acc, seed, receiveAmount, bump)])
  }

  /** `deposit`: move `amount` of `mint_a` from the maker into the vault, at the mint's decimals. */
  function DepositStep(s: State, acc: MakeAccounts, signers: set<Signer>, amount: u64): (r: Result<State>)
    requires acc.mintA in s.mints
    ensures r.Ok? ==> r.value.mints == s.mints && r.value.escrows == s.escrows
  {
    var t :- Transfer(s.tokens, s.mints, MakerKeyA(acc), VaultKey(acc), acc.mintA,
                      amount, s.mints[acc.mintA], acc.maker, signers);
    Ok(State(s.mints, t, s.escrows))
  }

  /**
   * The account phase of `Make`, as Anchor runs it before the handler. On
   * failure the partial changes are discarded by the caller.
   */
  method ValidateMakeAccounts(l: Ledger, acc: MakeAccounts, signers: set<Signer>, seed: u64)
    returns (r: Outcome, bump: u8)
    modifies l
    ensures bump == MakeBump(l.bumpOf, acc, seed)
    ensures var o := ValidateAccounts(old(l.View()), acc, signers, seed, bump);
      && r == OutcomeOf(o)
      && (o.Ok? ==> l.View() == o.value)
  {
    bump := MakeBump(l.bumpOf, acc, seed);
    if acc.maker !in signers { return Fail(AccountNotSigner), bump; }
    if acc.mintA !in l.mints || acc.mintB !in l.mints { return Fail(AccountNotInitialized), bump; }
    if acc.makerAtaA != AtaAddress(MakerKeyA(acc)) { return Fail(ConstraintAssociated), bump; }
    l.CreateAccountIfNeeded(MakerKeyA(acc));
    if acc.escrow != EscrowAddress(acc.maker, seed, bump) { return Fail(ConstraintSeeds), bump; }
    r := l.AllocateEscrow(acc.escrow);
    if r.Fail? { return; }
    if acc.vault != AtaAddress(VaultKey(acc)) { return Fail(ConstraintAssociated), bump; }
    r := l.CreateAccount(VaultKey(acc));
  }

  /** `init_escrow_state` (`set_inner`). */
  method InitEscrowState(l: Ledger, acc: MakeAccounts, seed: u64, receiveAmount: u64, bump: u8)
    modifies l
    ensures l.View() == InitEscrowStateStep(old(l.View()), acc, seed, receiveAmount, bump)
  {
    l.WriteEscrow(acc.escrow, NewRecord(acc, seed, receiveAmount, bump));
  }

  /** `deposit(amount)`. */
  method Deposit(l: Ledger, acc: MakeAccounts, signers: set<Signer>, amount: u64) returns (r: Outcome)
    requires acc.mintA in l.mints
    modifies l
    ensures var o := DepositStep(old(l.View()), acc, signers, amount);
      && r == OutcomeOf(o)
      && l.View() == (if o.Ok? then o.value else old(l.View()))
  {
    r := l.TransferChecked(MakerKeyA(acc), VaultKey(acc), acc.mintA, amount, l.mints[acc.mintA], acc.maker, signers);
  }
}
