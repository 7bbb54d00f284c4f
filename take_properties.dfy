/** What a `take` call requires and what it does to the ledger. */
module TakeProperties {
  import opened Solana
  import opened Token
  import opened EscrowRecord
  import opened Ledger
  import opened TakeInstruction
  import opened EscrowProgram

  /** The token accounts left by the account phase: the parties' accounts opened if missing. */
  function OpenedAccounts(t: Balances, acc: TakeAccounts): Balances
  {
    CreateIfNeeded(CreateIfNeeded(CreateIfNeeded(t, TakerKeyB(acc)), TakerKeyA(acc)), MakerKeyB(acc))
  }

  /** What a passed account phase establishes about the accounts and the ledger. */
  lemma ValidatedTake(s: State, acc: TakeAccounts, signers: set<Signer>)
    requires ValidateAccounts(s, acc, signers).Ok?
    ensures var r := s.escrows[acc.escrow];
      && ValidateAccounts(s, acc, signers).value == State(s.mints, OpenedAccounts(s.tokens, acc), s.escrows)
      && acc.taker in signers && acc.taker.Wallet?
      && r.mintA == acc.mintA && r.mintB == acc.mintB && r.maker == acc.maker
      && acc.escrow == VaultSigner(acc, r) && !acc.escrow.Wallet? && acc.escrow != acc.maker
      && acc.vault == AtaAddress(VaultKey(acc)) && VaultKey(acc) in s.tokens
      && acc.takerAtaA == AtaAddress(TakerKeyA(acc)) && acc.takerAtaB == AtaAddress(TakerKeyB(acc))
      && acc.makerAtaB == AtaAddress(MakerKeyB(acc))
      && VaultKey(acc) != TakerKeyA(acc) && VaultKey(acc) != TakerKeyB(acc) && VaultKey(acc) != MakerKeyB(acc)
  {
    var r := s.escrows[acc.escrow];
  }

  /** `take` runs only against a record that binds the given `mint_a`, `mint_b` and maker. */
  lemma TakeRequiresBinding(s: State, acc: TakeAccounts, signers: set<Signer>)
    requires acc.escrow in s.escrows
    requires var r := s.escrows[acc.escrow]; r.mintA != acc.mintA || r.mintB != acc.mintB || r.maker != acc.maker
    ensures TakeTx(s, acc, signers).Err?
  {
  }

  /** `take` runs only against a record at the address its maker, seed and bump derive. */
  lemma TakeRequiresDerivedAddress(s: State, acc: TakeAccounts, signers: set<Signer>)
    requires acc.escrow in s.escrows
    requires var r := s.escrows[acc.escrow]; acc.escrow != EscrowAddress(acc.maker, r.seed, r.bump)
    ensures TakeTx(s, acc, signers).Err?
  {
  }

  /** The taker's and maker's token accounts given must be their associated accounts. */
  lemma TakeRequiresPartyAccounts(s: State, acc: TakeAccounts, signers: set<Signer>)
    requires || acc.takerAtaA != AtaAddress(TakerKeyA(acc))
             || acc.takerAtaB != AtaAddress(TakerKeyB(acc))
             || acc.makerAtaB != AtaAddress(MakerKeyB(acc))
    ensures TakeTx(s, acc, signers).Err?
  {
  }

  /** The vault given must be the record's existing associated `mint_a` account. */
  lemma TakeRequiresVault(s: State, acc: TakeAccounts, signers: set<Signer>)
    requires acc.vault != AtaAddress(VaultKey(acc)) || VaultKey(acc) !in s.tokens
    ensures TakeTx(s, acc, signers).Err?
  {
    if ValidateAccounts(s, acc, signers).Ok? {
      ValidatedTake(s, acc, signers);
    }
  }

  /** A taker who does not hold the receive amount of `mint_b` cannot take. */
  lemma TakeFailsIfUnderfunded(s: State, acc: TakeAccounts, signers: set<Signer>)
    requires acc.escrow in s.escrows
    requires Bal(s.tokens, TakerKeyB(acc)) < s.escrows[acc.escrow].receiveAmount
    ensures TakeTx(s, acc, signers).Err?
  {
    if ValidateAccounts(s, acc, signers).Ok? {
      ValidatedTake(s, acc, signers);
      assert Bal(OpenedAccounts(s.tokens, acc), TakerKeyB(acc)) == Bal(s.tokens, TakerKeyB(acc));
    }
  }

  /** `withdraw` empties the vault into the taker's `mint_a` account. */
  lemma WithdrawEmptiesVault(s: State, acc: TakeAccounts, signers: set<Signer>)
    requires acc.escrow in s.escrows && acc.mintA in s.mints
    requires TakerKeyA(acc) != VaultKey(acc)
    requires WithdrawStep(s, acc, signers).Ok?
    ensures var t := WithdrawStep(s, acc, signers).value.tokens;
      && VaultKey(acc) in t && t[VaultKey(acc)] == 0
      && Bal(t, TakerKeyA(acc)) == Bal(s.tokens, TakerKeyA(acc)) + Bal(s.tokens, VaultKey(acc))
  {
  }

  /** `close_vault` succeeds only on an empty vault, which it removes. */
  lemma CloseVaultNeedsEmptyVault(s: State, acc: TakeAccounts, signers: set<Signer>)
    requires acc.escrow in s.escrows
    requires CloseVaultStep(s, acc, signers).Ok?
    ensures VaultKey(acc) in s.tokens && s.tokens[VaultKey(acc)] == 0
    ensures CloseVaultStep(s, acc, signers).value.tokens == s.tokens - {VaultKey(acc)}
  {
  }

  /**
   * The vault answers only to the record's signer seeds: when its owner is a
   * derived address, `withdraw` and `close_vault` succeed only if the seeds
   * derive exactly that owner, never on a wallet's signature.
   */
  lemma VaultCallsSignedBySeeds(s: State, acc: TakeAccounts, signers: set<Signer>)
    requires acc.escrow in s.escrows && acc.mintA in s.mints
    requires !acc.escrow.Wallet?
    ensures WithdrawStep(s, acc, signers).Ok? ==> acc.escrow == VaultSigner(acc, s.escrows[acc.escrow])
    ensures CloseVaultStep(s, acc, signers).Ok? ==> acc.escrow == VaultSigner(acc, s.escrows[acc.escrow])
  {
  }

  /**
   * The conditions on balances under which `take`'s handler runs through,
   * after a passed account phase: the taker covers the receive amount, the
   * maker's `mint_b` account can absorb it unless it is the taker's own, and
   * the taker's `mint_a` account, after paying if it is the same account, can
   * absorb the whole vault.
   */
  ghost predicate TakeAccepted(s: State, acc: TakeAccounts, signers: set<Signer>)
  {
    && ValidateAccounts(s, acc, signers).Ok?
    && var r := s.escrows[acc.escrow];
       var paid := TakerKeyB(acc) != MakerKeyB(acc);
       var a := if TakerKeyA(acc) == TakerKeyB(acc) && paid then Bal(s.tokens, TakerKeyB(acc)) - r.receiveAmount
                else Bal(s.tokens, TakerKeyA(acc));
       && r.receiveAmount <= Bal(s.tokens, TakerKeyB(acc))
       && (paid ==> Bal(s.tokens, MakerKeyB(acc)) + r.receiveAmount <= U64_MAX)
       && a + Bal(s.tokens, VaultKey(acc)) <= U64_MAX
  }

  /** `take` succeeds exactly when the accounts pass and the balances allow both transfers. */
  lemma TakeSucceedsIff(s: State, acc: TakeAccounts, signers: set<Signer>)
    ensures TakeTx(s, acc, signers).Ok? <==> TakeAccepted(s, acc, signers)
  {
    if ValidateAccounts(s, acc, signers).Ok? {
      ValidatedTake(s, acc, signers);
      var r := s.escrows[acc.escrow];
      var t3 := OpenedAccounts(s.tokens, acc);
      assert Bal(t3, TakerKeyB(acc)) == Bal(s.tokens, TakerKeyB(acc));
      assert Bal(t3, TakerKeyA(acc)) == Bal(s.tokens, TakerKeyA(acc));
      assert Bal(t3, MakerKeyB(acc)) == Bal(s.tokens, MakerKeyB(acc));
      assert Bal(t3, VaultKey(acc)) == Bal(s.tokens, VaultKey(acc));
      var d := Transfer(t3, s.mints, TakerKeyB(acc), MakerKeyB(acc), acc.mintB,
                        r.receiveAmount, s.mints[acc.mintB], acc.taker, signers);
      if d.Ok? {
        var t4 := d.value;
        assert Bal(t4, VaultKey(acc)) == Bal(s.tokens, VaultKey(acc));
      }
    }
  }

  /**
   * Between distinct parties and mints, a successful `take` debits the
   * taker's `mint_b` account by the receive amount, credits the maker's by
   * the same, credits the taker's `mint_a` account with the whole vault, and
   * removes the vault; the parties' accounts exist afterwards (opened at zero
   * if they were missing), and no record or mint changes. Every other token
   * account is unchanged, by `TakeTouchesOnlyItsAccounts`.
   */
  lemma TakeEffect(s: State, acc: TakeAccounts, signers: set<Signer>)
    requires TakeTx(s, acc, signers).Ok?
    requires acc.taker != acc.maker && acc.mintA != acc.mintB
    ensures var s' := TakeTx(s, acc, signers).value;
      var r := s.escrows[acc.escrow];
      && VaultKey(acc) in s.tokens && VaultKey(acc) !in s'.tokens
      && TakerKeyB(acc) in s'.tokens && MakerKeyB(acc) in s'.tokens && TakerKeyA(acc) in s'.tokens
      && r.receiveAmount <= Bal(s.tokens, TakerKeyB(acc))
      && s'.tokens[TakerKeyB(acc)] == Bal(s.tokens, TakerKeyB(acc)) - r.receiveAmount
      && s'.tokens[MakerKeyB(acc)] == Bal(s.tokens, MakerKeyB(acc)) + r.receiveAmount
      && s'.tokens[TakerKeyA(acc)] == Bal(s.tokens, TakerKeyA(acc)) + Bal(s.tokens, VaultKey(acc))
      && s'.escrows == s.escrows && s'.mints == s.mints
  {
    ValidatedTake(s, acc, signers);
    var r := s.escrows[acc.escrow];
    var t3 := OpenedAccounts(s.tokens, acc);
    var pda := VaultSigner(acc, r);
    var t4 := Transfer(t3, s.mints, TakerKeyB(acc), MakerKeyB(acc), acc.mintB,
                       r.receiveAmount, s.mints[acc.mintB], acc.taker, signers).value;
    assert t4[TakerKeyA(acc)] == t3[TakerKeyA(acc)] && t4[VaultKey(acc)] == t3[VaultKey(acc)];
    var v := t4[VaultKey(acc)];
    var t5 := Transfer(t4, s.mints, VaultKey(acc), TakerKeyA(acc), acc.mintA,
                       v, s.mints[acc.mintA], acc.escrow, signers + {pda}).value;
    assert t5[TakerKeyB(acc)] == t4[TakerKeyB(acc)] && t5[MakerKeyB(acc)] == t4[MakerKeyB(acc)];
  }

  /**
   * The corrected check at work: a successful `take` pays the maker the
   * receive amount in the `mint_b` the record names.
   */
  lemma TakePaysRecordedMint(s: State, acc: TakeAccounts, signers: set<Signer>)
    requires TakeTx(s, acc, signers).Ok?
    requires acc.taker != acc.maker
    ensures var r := s.escrows[acc.escrow];
      Bal(TakeTx(s, acc, signers).value.tokens, TokenKey(r.mintB, r.maker)) == Bal(s.tokens, TokenKey(r.mintB, r.maker)) + r.receiveAmount
  {
    ValidatedTake(s, acc, signers);
    var r := s.escrows[acc.escrow];
    var t3 := OpenedAccounts(s.tokens, acc);
    var pda := VaultSigner(acc, r);
    var t4 := Transfer(t3, s.mints, TakerKeyB(acc), MakerKeyB(acc), acc.mintB,
                       r.receiveAmount, s.mints[acc.mintB], acc.taker, signers).value;
    var v := Bal(t4, VaultKey(acc));
    var t5 := Transfer(t4, s.mints, VaultKey(acc), TakerKeyA(acc), acc.mintA,
                       v, s.mints[acc.mintA], acc.escrow, signers + {pda}).value;
    assert t5[MakerKeyB(acc)] == t4[MakerKeyB(acc)];
  }

  /**
   * A successful `take` changes only the taker's two accounts, the maker's
   * `mint_b` account and the vault: every other token account, including
   * every other vault, stays as it was.
   */
  lemma TakeTouchesOnlyItsAccounts(s: State, acc: TakeAccounts, signers: set<Signer>, k: TokenKey)
    requires TakeTx(s, acc, signers).Ok?
    requires k != TakerKeyA(acc) && k != TakerKeyB(acc) && k != MakerKeyB(acc) && k != VaultKey(acc)
    ensures var s' := TakeTx(s, acc, signers).value;
      (k in s'.tokens <==> k in s.tokens) && Bal(s'.tokens, k) == Bal(s.tokens, k)
  {
    ValidatedTake(s, acc, signers);
  }

  /** A successful `take` closes the vault it was given and leaves every record and mint in place. */
  lemma TakeClosesVault(s: State, acc: TakeAccounts, signers: set<Signer>)
    requires TakeTx(s, acc, signers).Ok?
    ensures var s' := TakeTx(s, acc, signers).value;
      && VaultKey(acc) in s.tokens && VaultKey(acc) !in s'.tokens
      && s'.escrows == s.escrows && s'.mints == s.mints
  {
    ValidatedTake(s, acc, signers);
  }

  /** `take` neither creates nor destroys tokens of any mint. */
  lemma TakeConservesSupply(s: State, acc: TakeAccounts, signers: set<Signer>, m: Pubkey)
    requires TakeTx(s, acc, signers).Ok?
    ensures Supply(TakeTx(s, acc, signers).value.tokens, m) == Supply(s.tokens, m)
  {
    ValidatedTake(s, acc, signers);
    var r := s.escrows[acc.escrow];
    var t1 := CreateIfNeeded(s.tokens, TakerKeyB(acc));
    var t2 := CreateIfNeeded(t1, TakerKeyA(acc));
    var t3 := CreateIfNeeded(t2, MakerKeyB(acc));
    if TakerKeyB(acc) !in s.tokens { CreateConservesSupply(s.tokens, TakerKeyB(acc), m); }
    if TakerKeyA(acc) !in t1 { CreateConservesSupply(t1, TakerKeyA(acc), m); }
    if MakerKeyB(acc) !in t2 { CreateConservesSupply(t2, MakerKeyB(acc), m); }
    var pda := VaultSigner(acc, r);
    TransferConservesSupply(t3, s.mints, TakerKeyB(acc), MakerKeyB(acc), acc.mintB,
                            r.receiveAmount, s.mints[acc.mintB], acc.taker, signers, m);
    var t4 := Transfer(t3, s.mints, TakerKeyB(acc), MakerKeyB(acc), acc.mintB,
                       r.receiveAmount, s.mints[acc.mintB], acc.taker, signers).value;
    var v := Bal(t4, VaultKey(acc));
    TransferConservesSupply(t4, s.mints, VaultKey(acc), TakerKeyA(acc), acc.mintA,
                            v, s.mints[acc.mintA], acc.escrow, signers + {pda}, m);
    var t5 := Transfer(t4, s.mints, VaultKey(acc), TakerKeyA(acc), acc.mintA,
                       v, s.mints[acc.mintA], acc.escrow, signers + {pda}).value;
    CloseConservesSupply(t5, VaultKey(acc), acc.escrow, signers + {pda}, m);
  }

  /** The counterexample's ledger: the record asks for 50 of mint 11, the taker holds 50 of mint 12. */
  function ForeignMintLedger(): State
  {
    var maker, taker := Wallet(1), Wallet(2);
    var escrow := EscrowAddress(maker, 0, 255);
    State(map[Wallet(10) := 6, Wallet(11) := 6, Wallet(12) := 6],
          map[TokenKey(Wallet(10), escrow) := 100, TokenKey(Wallet(12), taker) := 50],
          map[escrow := EscrowState(0, 255, Wallet(10), Wallet(11), 50, maker)])
  }

  /** The counterexample's accounts: the taker names mint 12 as `mint_b`. */
  function ForeignMintAccounts(): TakeAccounts
  {
    var maker, taker := Wallet(1), Wallet(2);
    var escrow := EscrowAddress(maker, 0, 255);
    TakeAccounts(taker, maker, Wallet(10), Wallet(12),
                 AtaAddress(TokenKey(Wallet(12), taker)), AtaAddress(TokenKey(Wallet(10), taker)),
                 AtaAddress(TokenKey(Wallet(12), maker)), escrow, AtaAddress(TokenKey(Wallet(10), escrow)))
  }

  /** The counterexample's accounts pass the checks as written, which open the three missing accounts. */
  lemma ForeignMintPassesAsWritten()
    ensures var s := ForeignMintLedger();
      ValidateAccountsAsWritten(s, ForeignMintAccounts(), {Wallet(2)})
        == Ok(State(s.mints, s.tokens[TokenKey(Wallet(10), Wallet(2)) := 0][TokenKey(Wallet(12), Wallet(1)) := 0], s.escrows))
  {
  }

  /** After those checks the handler pays 50 of mint 12 to the maker and releases the vault to the taker. */
  lemma ForeignMintHandlerRuns()
    ensures var s := ForeignMintLedger();
      var escrow := EscrowAddress(Wallet(1), 0, 255);
      var t3 := s.tokens[TokenKey(Wallet(10), Wallet(2)) := 0][TokenKey(Wallet(12), Wallet(1)) := 0];
      var t4 := t3[TokenKey(Wallet(12), Wallet(2)) := 0][TokenKey(Wallet(12), Wallet(1)) := 50];
      var t5 := t4[TokenKey(Wallet(10), escrow) := 0][TokenKey(Wallet(10), Wallet(2)) := 100];
      TakeSteps(State(s.mints, t3, s.escrows), ForeignMintAccounts(), {Wallet(2)})
        == Ok(State(s.mints, t5 - {TokenKey(Wallet(10), escrow)}, s.escrows))
  {
    var s := ForeignMintLedger();
    var acc := ForeignMintAccounts();
    var escrow := EscrowAddress(Wallet(1), 0, 255);
    var t3 := s.tokens[TokenKey(Wallet(10), Wallet(2)) := 0][TokenKey(Wallet(12), Wallet(1)) := 0];
    var t4 := t3[TokenKey(Wallet(12), Wallet(2)) := 0][TokenKey(Wallet(12), Wallet(1)) := 50];
    assert TakeInstruction.DepositStep(State(s.mints, t3, s.escrows), acc, {Wallet(2)}, 50, 6)
        == Ok(State(s.mints, t4, s.escrows));
    var t5 := t4[TokenKey(Wallet(10), escrow) := 0][TokenKey(Wallet(10), Wallet(2)) := 100];
    assert WithdrawStep(State(s.mints, t4, s.escrows), acc, {Wallet(2)}) == Ok(State(s.mints, t5, s.escrows));
  }

  /**
   * The constraints as written do not bind `mint_b`: here the record asks
   * for mint 11, the taker names mint 12 instead, the accounts pass, and the
   * handler releases the vault while the maker's account in mint 11 gets nothing.
   */
  lemma TakeAsWrittenAcceptsForeignMintB()
    ensures var s, acc, taker := ForeignMintLedger(), ForeignMintAccounts(), Wallet(2);
      var record := s.escrows[acc.escrow];
      var s1 := ValidateAccountsAsWritten(s, acc, {taker});
      && s1.Ok?
      && acc.mintB != record.mintB
      && TakeSteps(s1.value, acc, {taker}).Ok?
      && Bal(TakeSteps(s1.value, acc, {taker}).value.tokens, TokenKey(acc.mintA, taker)) == 100
      && Bal(TakeSteps(s1.value, acc, {taker}).value.tokens, TokenKey(record.mintB, record.maker)) == 0
  {
    ForeignMintPassesAsWritten();
    ForeignMintHandlerRuns();
  }
}
