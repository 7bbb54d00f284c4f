/**
 * The `Refund` instruction's accounts and its one step,
 * `refund_and_close_vault`.
 */
module RefundInstruction {
  import opened Solana
  import opened Token
  import opened EscrowRecord
  import opened Ledger

  /** The accounts a `refund` call names, by address, in field order. */
  datatype RefundAccounts = RefundAccounts(
    maker: Pubkey,
    mintA: Pubkey,
    makerAtaA: Pubkey,
    escrow: Pubkey,
    vault: Pubkey)

  function MakerKeyA(acc: RefundAccounts): TokenKey { TokenKey(acc.mintA, acc.maker) }
  function VaultKey(acc: RefundAccounts): TokenKey { TokenKey(acc.mintA, acc.escrow) }

  /** The key the signer seeds `["escrow", maker, escrow.seed bytes, [escrow.bump]]` derive. */
  function VaultSigner(acc: RefundAccounts, r: EscrowState): Pubkey
  {
    EscrowAddress(acc.maker, r.seed, r.bump)
  }

  /**
   * Anchor's validation of the `Refund` accounts in field order. Nothing is
   * created: the maker's `mint_a` account and the vault must already exist.
   */
  function ValidateAccounts(s: State, acc: RefundAccounts, signers: set<Signer>): (o: Outcome)
    ensures o.Pass? ==>
      && acc.escrow in s.escrows && acc.mintA in s.mints
      && MakerKeyA(acc) in s.tokens && VaultKey(acc) in s.tokens
  {
    if acc.maker !in signers then Fail(AccountNotSigner)
    else if acc.mintA !in s.mints then Fail(AccountNotInitialized)
    else if acc.makerAtaA != AtaAddress(MakerKeyA(acc)) then Fail(ConstraintAssociated)
    else if MakerKeyA(acc) !in s.tokens then Fail(AccountNotInitialized)
    else if acc.escrow !in s.escrows then Fail(AccountNotInitialized)
    else
      var r := s.escrows[acc.escrow];
      if r.mintA != acc.mintA || r.maker != acc.maker then Fail(ConstraintHasOne)
      else if acc.escrow != EscrowAddress(acc.maker, r.seed, r.bump) then Fail(ConstraintSeeds)
      else if acc.vault != AtaAddress(VaultKey(acc)) then Fail(ConstraintAssociated)
      else if VaultKey(acc) !in s.tokens then Fail(AccountNotInitialized)
      else Pass
  }

  /**
   * `refund_and_close_vault`: the whole vault balance goes back to the
   * maker, then the vault is closed; both calls are signed by the record's seeds.
   */
  function RefundAndCloseVaultStep(s: State, acc: RefundAccounts, signers: set<Signer>): (r: Result<State>)
    requires acc.escrow in s.escrows && acc.mintA in s.mints
    ensures r.Ok? ==> r.value.mints == s.mints && r.value.escrows == s.escrows
  {
    var pda := VaultSigner(acc, s.escrows[acc.escrow]);
    var t1 :- Transfer(s.tokens, s.mints, VaultKey(acc), MakerKeyA(acc), acc.mintA,
                       Bal(s.tokens, VaultKey(acc)), s.mints[acc.mintA], acc.escrow, signers + {pda});
    var t2 :- Close(t1, VaultKey(acc), acc.escrow, signers + {pda});
    Ok(State(s.mints, t2, s.escrows))
  }

  /** `refund_and_close_vault`. On failure the partial changes are discarded by the caller. */
  method RefundAndCloseVault(l: Ledger, acc: RefundAccounts, signers: set<Signer>) returns (r: Outcome)
    requires acc.escrow in l.escrows && acc.mintA in l.mints
    modifies l
    ensures var o := RefundAndCloseVaultStep(old(l.View()), acc, signers);
      && r == OutcomeOf(o)
      && (o.Ok? ==> l.View() == o.value)
  {
    var pda := VaultSigner(acc, l.escrows[acc.escrow]);
    r := l.TransferChecked(VaultKey(acc), MakerKeyA(acc), acc.mintA, Bal(l.tokens, VaultKey(acc)),
                           l.mints[acc.mintA], acc.escrow, signers + {pda});
    if r.Fail? { return; }
    r := l.CloseAccount(VaultKey(acc), acc.escrow, signers + {pda});
  }
}
