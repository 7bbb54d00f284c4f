/**
 * The `Take` instruction's accounts and steps: Anchor's checks and account
 * creation, `deposit`, `withdraw` and `close_vault`.
 */
module TakeInstruction {
  import opened Solana
  import opened Token
  import opened EscrowRecord
  import opened Ledger

  /** The accounts a `take` call names, by address, in field order. */
  datatype TakeAccounts = TakeAccounts(
    taker: Pubkey,
    maker: Pubkey,
    mintA: Pubkey,
    mintB: Pubkey,
    takerAtaB: Pubkey,
    takerAtaA: Pubkey,
    makerAtaB: Pubkey,
    escrow: Pubkey,
    vault: Pubkey)

  function TakerKeyB(acc: TakeAccounts): TokenKey { TokenKey(acc.mintB, acc.taker) }
  function TakerKeyA(acc: TakeAccounts): TokenKey { TokenKey(acc.mintA, acc.taker) }
  function MakerKeyB(acc: TakeAccounts): TokenKey { TokenKey(acc.mintB, acc.maker) }
  function VaultKey(acc: TakeAccounts): TokenKey { TokenKey(acc.mintA, acc.escrow) }

  /**
   * The key the signer seeds `["escrow", maker, escrow.seed bytes, [escrow.bump]]`
   * derive: the only signature the program adds to a vault call.
   */
  function VaultSigner(acc: TakeAccounts, r: EscrowState): Pubkey
  {
    EscrowAddress(acc.maker, r.seed, r.bump)
  }

  /**
   * Anchor's validation of the `Take` accounts in field order, exactly as
   * the constraints are written: the three token accounts of the parties
   * are created if missing, the record must bind `mint_a` and `maker` and
   * sit at its derived address, and the vault must be the record's
   * associated `mint_a` account. Modelling assumption: the seeds use the
   * record's own `seed`, as `withdraw` and `close_vault` do, since `take`
   * receives no seed argument.
   */
  function ValidateAccountsAsWritten(s: State, acc: TakeAccounts, signers: set<Signer>): (r: Result<State>)
    ensures r.Ok? ==>
      && acc.escrow in s.escrows
      && r.value.mints == s.mints && r.value.escrows == s.escrows
      && acc.mintA in s.mints && acc.mintB in s.mints
  {
    if acc.taker !in signers then Err(AccountNotSigner)
    else if acc.mintA !in s.mints || acc.mintB !in s.mints then Err(AccountNotInitialized)
    else if acc.takerAtaB != AtaAddress(TakerKeyB(acc)) then Err(ConstraintAssociated)
    else
      var t1 := CreateIfNeeded(s.tokens, TakerKeyB(acc));
      if acc.takerAtaA != AtaAddress(TakerKeyA(acc)) then Err(ConstraintAssociated)
      else
        var t2 := CreateIfNeeded(t1, TakerKeyA(acc));
        if acc.makerAtaB != AtaAddress(MakerKeyB(acc)) then Err(ConstraintAssociated)
        else
          var t3 := CreateIfNeeded(t2, MakerKeyB(acc));
          if acc.escrow !in s.escrows then Err(AccountNotInitialized)
          else
            var r := s.escrows[acc.escrow];
            if r.mintA != acc.mintA || r.maker != acc.maker then Err(ConstraintHasOne)
            else if acc.escrow != EscrowAddress(acc.maker, r.seed, r.bump) then Err(ConstraintSeeds)
            else if acc.vault != AtaAddress(VaultKey(acc)) then Err(ConstraintAssociated)
            else if VaultKey(acc) !in t3 then Err(AccountNotInitialized)
            else Ok(State(s.mints, t3, s.escrows))
  }

  /**
   * The validation the model uses: the written constraints plus
   * `has_one = mint_b`, so that the maker is paid in the mint the record names.
   */
  function ValidateAccounts(s: State, acc: TakeAccounts, signers: set<Signer>): (r: Result<State>)
    ensures r.Ok? ==>
      && acc.escrow in s.escrows
      && r.value.mints == s.mints && r.value.escrows == s.escrows
      && acc.mintA in s.mints && acc.mintB in s.mints
  {
    var s1 :- ValidateAccountsAsWritten(s, acc, signers);
    if s.escrows[acc.escrow].mintB != acc.mintB then Err(ConstraintHasOne) else Ok(s1)
  }

  /** `deposit(amount, decimals)`: the taker pays `amount` of `mint_b` to the maker. */
  function DepositStep(s: State, acc: TakeAccounts, signers: set<Signer>, amount: u64, decimals: u8): (r: Result<State>)
    ensures r.Ok? ==> r.value.mints == s.mints && r.value.escrows == s.escrows
  {
    var t :- Transfer(s.tokens, s.mints, TakerKeyB(acc), MakerKeyB(acc), acc.mintB,
                      amount, decimals, acc.taker, signers);
    Ok(State(s.mints, t, s.escrows))
  }

  /** `withdraw`: the whole vault balance goes to the taker, signed by the record's seeds. */
  function WithdrawStep(s: State, acc: TakeAccounts, signers: set<Signer>): (r: Result<State>)
    requires acc.escrow in s.escrows && acc.mintA in s.mints
    ensures r.Ok? ==> r.value.mints == s.mints && r.value.escrows == s.escrows
  {
    var pda := VaultSigner(acc, s.escrows[acc.escrow]);
    var t :- Transfer(s.tokens, s.mints, VaultKey(acc), TakerKeyA(acc), acc.mintA,
                      Bal(s.tokens, VaultKey(acc)), s.mints[acc.mintA], acc.escrow, signers + {pda});
    Ok(State(s.mints, t, s.escrows))
  }

  /** `close_vault`: the vault account is closed, signed by the record's seeds. */
  function CloseVaultStep(s: State, acc: TakeAccounts, signers: set<Signer>): (r: Result<State>)
    requires acc.escrow in s.escrows
    ensures r.Ok? ==> r.value.mints == s.mints && r.value.escrows == s.escrows
  {
    var pda := VaultSigner(acc, s.escrows[acc.escrow]);
    var t :- Close(s.tokens, VaultKey(acc), acc.escrow, signers + {pda});
    Ok(State(s.mints, t, s.escrows))
  }

  /** The account phase of `Take`. On failure the partial changes are discarded by the caller. */
  method ValidateTakeAccounts(l: Ledger, acc: TakeAccounts, signers: set<Signer>) returns (r: Outcome)
    modifies l
    ensures var o := ValidateAccounts(old(l.View()), acc, signers);
      && r == OutcomeOf(o)
      && (o.Ok? ==> l.View() == o.value)
  {
    if acc.taker !in signers { return Fail(AccountNotSigner); }
    if acc.mintA !in l.mints || acc.mintB !in l.mints { return Fail(AccountNotInitialized); }
    if acc.takerAtaB != AtaAddress(TakerKeyB(acc)) { return Fail(ConstraintAssociated); }
    l.CreateAccountIfNeeded(TakerKeyB(acc));
    if acc.takerAtaA != AtaAddress(TakerKeyA(acc)) { return Fail(ConstraintAssociated); }
    l.CreateAccountIfNeeded(TakerKeyA(acc));
    if acc.makerAtaB != AtaAddress(MakerKeyB(acc)) { return Fail(ConstraintAssociated); }
    l.CreateAccountIfNeeded(MakerKeyB(acc));
    if acc.escrow !in l.escrows { return Fail(AccountNotInitialized); }
    var record := l.escrows[acc.escrow];
    if record.mintA != acc.mintA || record.maker != acc.maker { return Fail(ConstraintHasOne); }
    if acc.escrow != EscrowAddress(acc.maker, record.seed, record.bump) { return Fail(ConstraintSeeds); }
    if acc.vault != AtaAddress(VaultKey(acc)) { return Fail(ConstraintAssociated); }
    if VaultKey(acc) !in l.tokens { return Fail(AccountNotInitialized); }
    if record.mintB != acc.mintB { return Fail(ConstraintHasOne); }
    r := Pass;
  }

  /** `deposit(amount, decimals)`. */
  method Deposit(l: Ledger, acc: TakeAccounts, signers: set<Signer>, amount: u64, decimals: u8) returns (r: Outcome)
    modifies l
    ensures var o := DepositStep(old(l.View()), acc, signers, amount, decimals);
      && r == OutcomeOf(o)
      && l.View() == (if o.Ok? then o.value else old(l.View()))
  {
    r := l.TransferChecked(TakerKeyB(acc), MakerKeyB(acc), acc.mintB, amount, decimals, acc.taker, signers);
  }

  /** `withdraw`. */
  method Withdraw(l: Ledger, acc: TakeAccounts, signers: set<Signer>) returns (r: Outcome)
    requires acc.escrow in l.escrows && acc.mintA in l.mints
    modifies l
    ensures var o := WithdrawStep(old(l.View()), acc, signers);
      && r == OutcomeOf(o)
      && l.View() == (if o.Ok? then o.value else old(l.View()))
  {
    var pda := VaultSigner(acc, l.escrows[acc.escrow]);
    r := l.TransferChecked(VaultKey(acc), TakerKeyA(acc), acc.mintA, Bal(l.tokens, VaultKey(acc)),
                           l.mints[acc.mintA], acc.escrow, signers + {pda});
  }

  /** `close_vault`. */
  method CloseVault(l: Ledger, acc: TakeAccounts, signers: set<Signer>) returns (r: Outcome)
    requires acc.escrow in l.escrows
    modifies l
    ensures var o := CloseVaultStep(old(l.View()), acc, signers);
      && r == OutcomeOf(o)
      && l.View() == (if o.Ok? then o.value else old(l.View()))
  {
    var pda := VaultSigner(acc, l.escrows[acc.escrow]);
    r := l.CloseAccount(VaultKey(acc), acc.escrow, signers + {pda});
  }
}
