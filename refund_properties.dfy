/** What a `refund` call requires and what it does to the ledger. */
module RefundProperties {
  import opened Solana
  import opened Token
  import opened EscrowRecord
  import opened Ledger
  import opened RefundInstruction
  import opened EscrowProgram

  /** Only the maker the record stores, having signed, can refund it. */
  lemma RefundOnlyByStoredMaker(s: State, acc: RefundAccounts, signers: set<Signer>)
    requires acc.escrow in s.escrows
    requires s.escrows[acc.escrow].maker !in signers
    ensures RefundTx(s, acc, signers).Err?
  {
  }

  /** `refund` runs only against a record that binds `mint_a` and the maker, at its derived address. */
  lemma RefundRequiresBinding(s: State, acc: RefundAccounts, signers: set<Signer>)
    requires acc.escrow in s.escrows
    requires var r := s.escrows[acc.escrow];
      r.mintA != acc.mintA || r.maker != acc.maker || acc.escrow != EscrowAddress(acc.maker, r.seed, r.bump)
    ensures RefundTx(s, acc, signers).Err?
  {
  }

  /** The maker's `mint_a` account and the vault must already exist at their associated addresses. */
  lemma RefundRequiresAccounts(s: State, acc: RefundAccounts, signers: set<Signer>)
    requires || acc.makerAtaA != AtaAddress(MakerKeyA(acc)) || MakerKeyA(acc) !in s.tokens
             || acc.vault != AtaAddress(VaultKey(acc)) || VaultKey(acc) !in s.tokens
    ensures RefundTx(s, acc, signers).Err?
  {
  }

  /**
   * `refund` succeeds exactly when the accounts pass and the maker's
   * `mint_a` balance can absorb the whole vault within a u64.
   */
  lemma RefundSucceedsIff(s: State, acc: RefundAccounts, signers: set<Signer>)
    ensures RefundTx(s, acc, signers).Ok?
        <==> (&& ValidateAccounts(s, acc, signers).Pass?
              && Bal(s.tokens, MakerKeyA(acc)) + Bal(s.tokens, VaultKey(acc)) <= U64_MAX)
  {
    if ValidateAccounts(s, acc, signers).Pass? {
      var r := s.escrows[acc.escrow];
    }
  }

  /**
   * A successful `refund` returns the whole vault balance to the maker's
   * `mint_a` account, removes the vault, and changes no other token account,
   * no record and no mint: the record itself survives.
   */
  lemma RefundEffect(s: State, acc: RefundAccounts, signers: set<Signer>)
    requires RefundTx(s, acc, signers).Ok?
    ensures var s' := RefundTx(s, acc, signers).value;
      && MakerKeyA(acc) in s.tokens && VaultKey(acc) in s.tokens
      && s'.tokens == (s.tokens - {VaultKey(acc)})[MakerKeyA(acc) := s.tokens[MakerKeyA(acc)] + s.tokens[VaultKey(acc)]]
      && s'.escrows == s.escrows && s'.mints == s.mints
  {
    var r := s.escrows[acc.escrow];
    var pda := VaultSigner(acc, r);
    var t1 := Transfer(s.tokens, s.mints, VaultKey(acc), MakerKeyA(acc), acc.mintA,
                       s.tokens[VaultKey(acc)], s.mints[acc.mintA], acc.escrow, signers + {pda}).value;
    assert RefundTx(s, acc, signers).value.tokens == t1 - {VaultKey(acc)};
  }

  /** `refund` neither creates nor destroys tokens of any mint. */
  lemma RefundConservesSupply(s: State, acc: RefundAccounts, signers: set<Signer>, m: Pubkey)
    requires RefundTx(s, acc, signers).Ok?
    ensures Supply(RefundTx(s, acc, signers).value.tokens, m) == Supply(s.tokens, m)
  {
    var r := s.escrows[acc.escrow];
    var pda := VaultSigner(acc, r);
    TransferConservesSupply(s.tokens, s.mints, VaultKey(acc), MakerKeyA(acc), acc.mintA,
                            s.tokens[VaultKey(acc)], s.mints[acc.mintA], acc.escrow, signers + {pda}, m);
    var t1 := Transfer(s.tokens, s.mints, VaultKey(acc), MakerKeyA(acc), acc.mintA,
                       s.tokens[VaultKey(acc)], s.mints[acc.mintA], acc.escrow, signers + {pda}).value;
    CloseConservesSupply(t1, VaultKey(acc), acc.escrow, signers + {pda}, m);
  }
}
