/** What a `make` call requires and what it does to the ledger. */
module MakeProperties {
  import opened Solana
  import opened Token
  import opened EscrowRecord
  import opened Ledger
  import opened MakeInstruction
  import opened EscrowProgram

  /** Everything `make` needs of the ledger, its accounts and its signers. */
  ghost predicate MakeAccepted(s: State, bumpOf: (Pubkey, seq<u8>) -> u8, acc: MakeAccounts,
                               signers: set<Signer>, seed: u64, amount: u64)
  {
    && acc.maker in signers
    && acc.mintA in s.mints && acc.mintB in s.mints
    && acc.makerAtaA == AtaAddress(MakerKeyA(acc))
    && acc.escrow == EscrowAddress(acc.maker, seed, MakeBump(bumpOf, acc, seed))
    && acc.escrow !in s.escrows
    && acc.vault == AtaAddress(VaultKey(acc))
    && VaultKey(acc) !in s.tokens
    && amount <= Bal(s.tokens, MakerKeyA(acc))
  }

  /**
   * `make` succeeds exactly when the maker signed, both mints exist, the
   * accounts are at their required addresses, neither the record nor the
   * vault exists yet and the maker holds at least `amount` of `mint_a`.
   * There is no check on `amount`, `receive_amount` or the two mints.
   */
  lemma MakeSucceedsIff(s: State, bumpOf: (Pubkey, seq<u8>) -> u8, acc: MakeAccounts,
                        signers: set<Signer>, seed: u64, receiveAmount: u64, amount: u64)
    ensures MakeTx(s, bumpOf, acc, signers, seed, receiveAmount, amount).Ok?
        <==> MakeAccepted(s, bumpOf, acc, signers, seed, amount)
  {
    var bump := MakeBump(bumpOf, acc, seed);
    if acc.escrow == EscrowAddress(acc.maker, seed, bump) {
      assert VaultKey(acc) != MakerKeyA(acc);
    }
  }

  /** A second record for the same maker and seed cannot be made while one exists. */
  lemma MakeFailsIfRecordExists(s: State, bumpOf: (Pubkey, seq<u8>) -> u8, acc: MakeAccounts,
                                signers: set<Signer>, seed: u64, receiveAmount: u64, amount: u64)
    requires EscrowAddress(acc.maker, seed, MakeBump(bumpOf, acc, seed)) in s.escrows
    ensures MakeTx(s, bumpOf, acc, signers, seed, receiveAmount, amount).Err?
  {
    MakeSucceedsIff(s, bumpOf, acc, signers, seed, receiveAmount, amount);
  }

  /** `make` cannot take over an existing vault. */
  lemma MakeFailsIfVaultExists(s: State, bumpOf: (Pubkey, seq<u8>) -> u8, acc: MakeAccounts,
                               signers: set<Signer>, seed: u64, receiveAmount: u64, amount: u64)
    requires TokenKey(acc.mintA, EscrowAddress(acc.maker, seed, MakeBump(bumpOf, acc, seed))) in s.tokens
    ensures MakeTx(s, bumpOf, acc, signers, seed, receiveAmount, amount).Err?
  {
    MakeSucceedsIff(s, bumpOf, acc, signers, seed, receiveAmount, amount);
  }

  /** The maker must hold the amount deposited; a missing account holds nothing. */
  lemma MakeFailsIfUnderfunded(s: State, bumpOf: (Pubkey, seq<u8>) -> u8, acc: MakeAccounts,
                               signers: set<Signer>, seed: u64, receiveAmount: u64, amount: u64)
    requires Bal(s.tokens, MakerKeyA(acc)) < amount
    ensures MakeTx(s, bumpOf, acc, signers, seed, receiveAmount, amount).Err?
  {
    MakeSucceedsIff(s, bumpOf, acc, signers, seed, receiveAmount, amount);
  }

  /** The deposit passes the mint's own decimals, so the decimals check never rejects it. */
  lemma MakeDecimalsNeverRejected(s: State, bumpOf: (Pubkey, seq<u8>) -> u8, acc: MakeAccounts,
                                  signers: set<Signer>, seed: u64, receiveAmount: u64, amount: u64)
    ensures MakeTx(s, bumpOf, acc, signers, seed, receiveAmount, amount) != Err(MintDecimalsMismatch)
  {
  }

  /**
   * A successful `make` stores the record at the derived address with the
   * call's seed and receive amount, the signer as maker, the given mints and
   * the canonical bump; no other record changes and the mints stay as they were.
   */
  lemma MakeStoresRecord(s: State, bumpOf: (Pubkey, seq<u8>) -> u8, acc: MakeAccounts,
                         signers: set<Signer>, seed: u64, receiveAmount: u64, amount: u64)
    requires MakeTx(s, bumpOf, acc, signers, seed, receiveAmount, amount).Ok?
    ensures var s' := MakeTx(s, bumpOf, acc, signers, seed, receiveAmount, amount).value;
      var bump := MakeBump(bumpOf, acc, seed);
      && acc.escrow == EscrowAddress(acc.maker, seed, bump)
      && acc.escrow !in s.escrows
      && s'.escrows == s.escrows[acc.escrow := EscrowState(seed, bump, acc.mintA, acc.mintB, receiveAmount, acc.maker)]
      && s'.mints == s.mints
  {
  }

  /**
   * A successful `make` opens the maker's `mint_a` account at zero if it was
   * missing, moves exactly `amount` from it into a vault that did not exist
   * before, and leaves every other token account as it was.
   */
  lemma MakeMovesAmount(s: State, bumpOf: (Pubkey, seq<u8>) -> u8, acc: MakeAccounts,
                        signers: set<Signer>, seed: u64, receiveAmount: u64, amount: u64)
    requires MakeTx(s, bumpOf, acc, signers, seed, receiveAmount, amount).Ok?
    ensures var s' := MakeTx(s, bumpOf, acc, signers, seed, receiveAmount, amount).value;
      && VaultKey(acc) !in s.tokens
      && amount <= Bal(s.tokens, MakerKeyA(acc))
      && s'.tokens == s.tokens[MakerKeyA(acc) := Bal(s.tokens, MakerKeyA(acc)) - amount][VaultKey(acc) := amount]
  {
    MakeSucceedsIff(s, bumpOf, acc, signers, seed, receiveAmount, amount);
    var bump := MakeBump(bumpOf, acc, seed);
    var t := CreateIfNeeded(s.tokens, MakerKeyA(acc));
    var t1 := t[VaultKey(acc) := 0];
    var s' := MakeTx(s, bumpOf, acc, signers, seed, receiveAmount, amount).value;
    assert s'.tokens == t1[MakerKeyA(acc) := t1[MakerKeyA(acc)] - amount][VaultKey(acc) := t1[VaultKey(acc)] + amount];
  }

  /** `make` neither creates nor destroys tokens of any mint. */
  lemma MakeConservesSupply(s: State, bumpOf: (Pubkey, seq<u8>) -> u8, acc: MakeAccounts,
                            signers: set<Signer>, seed: u64, receiveAmount: u64, amount: u64, m: Pubkey)
    requires MakeTx(s, bumpOf, acc, signers, seed, receiveAmount, amount).Ok?
    ensures Supply(MakeTx(s, bumpOf, acc, signers, seed, receiveAmount, amount).value.tokens, m) == Supply(s.tokens, m)
  {
    MakeSucceedsIff(s, bumpOf, acc, signers, seed, receiveAmount, amount);
    var bump := MakeBump(bumpOf, acc, seed);
    var t := CreateIfNeeded(s.tokens, MakerKeyA(acc));
    if MakerKeyA(acc) !in s.tokens {
      SupplyInsertZero(s.tokens, MakerKeyA(acc), m);
    }
    SupplyInsertZero(t, VaultKey(acc), m);
    var t1 := t[VaultKey(acc) := 0];
    TransferConservesSupply(t1, s.mints, MakerKeyA(acc), VaultKey(acc), acc.mintA,
                            amount, s.mints[acc.mintA], acc.maker, signers, m);
  }

  /** `make` keeps every record at the address its own fields derive. */
  lemma MakeKeepsRecordsAtOwnAddresses(s: State, bumpOf: (Pubkey, seq<u8>) -> u8, acc: MakeAccounts,
                                       signers: set<Signer>, seed: u64, receiveAmount: u64, amount: u64)
    requires RecordsAtOwnAddresses(s)
    requires MakeTx(s, bumpOf, acc, signers, seed, receiveAmount, amount).Ok?
    ensures RecordsAtOwnAddresses(MakeTx(s, bumpOf, acc, signers, seed, receiveAmount, amount).value)
  {
    MakeStoresRecord(s, bumpOf, acc, signers, seed, receiveAmount, amount);
  }
}
