/**
 * Properties of sequences of instructions: a whole trade, the vault being
 * consumed once, and the record slot that outlives its vault.
 */
module Lifecycle {
  import opened Solana
  import opened Token
  import opened EscrowRecord
  import opened Ledger
  import opened MakeInstruction
  import opened TakeInstruction
  import opened RefundInstruction
  import opened EscrowProgram
  import opened MakeProperties
  import opened TakeProperties
  import opened RefundProperties

  /**
   * A `make` followed by a `take` of the record it made, between distinct
   * parties and mints: the maker has given `amount` of `mint_a` and gained
   * `receive_amount` of `mint_b`, the taker has gained `amount` of `mint_a`,
   * and the vault no longer exists.
   */
  lemma MakeThenTake(s: State, bumpOf: (Pubkey, seq<u8>) -> u8, m: MakeAccounts, makeSigners: set<Signer>,
                     seed: u64, receiveAmount: u64, amount: u64, t: TakeAccounts, takeSigners: set<Signer>)
    requires MakeTx(s, bumpOf, m, makeSigners, seed, receiveAmount, amount).Ok?
    requires TakeTx(MakeTx(s, bumpOf, m, makeSigners, seed, receiveAmount, amount).value, t, takeSigners).Ok?
    requires t.escrow == m.escrow
    requires t.taker != t.maker && m.mintA != m.mintB
    ensures var s2 := TakeTx(MakeTx(s, bumpOf, m, makeSigners, seed, receiveAmount, amount).value, t, takeSigners).value;
      && Bal(s2.tokens, TokenKey(m.mintA, m.maker)) == Bal(s.tokens, TokenKey(m.mintA, m.maker)) - amount
      && Bal(s2.tokens, TokenKey(m.mintB, m.maker)) == Bal(s.tokens, TokenKey(m.mintB, m.maker)) + receiveAmount
      && Bal(s2.tokens, TokenKey(m.mintA, t.taker)) == Bal(s.tokens, TokenKey(m.mintA, t.taker)) + amount
      && TokenKey(m.mintA, m.escrow) !in s2.tokens
  {
    var s1 := MakeTx(s, bumpOf, m, makeSigners, seed, receiveAmount, amount).value;
    MakeStoresRecord(s, bumpOf, m, makeSigners, seed, receiveAmount, amount);
    MakeMovesAmount(s, bumpOf, m, makeSigners, seed, receiveAmount, amount);
    ValidatedTake(s1, t, takeSigners);
    TakeEffect(s1, t, takeSigners);
    TakeTouchesOnlyItsAccounts(s1, t, takeSigners, TokenKey(m.mintA, m.maker));
  }

  /**
   * Once a `take` has succeeded, no later `take` or `refund` of the same
   * record can: its vault is gone and nothing in either instruction reopens it.
   */
  lemma TakeConsumesOnce(s: State, a: TakeAccounts, signers: set<Signer>,
                         a2: TakeAccounts, signers2: set<Signer>, b: RefundAccounts, signers3: set<Signer>)
    requires TakeTx(s, a, signers).Ok?
    requires a2.escrow == a.escrow && b.escrow == a.escrow
    ensures TakeTx(TakeTx(s, a, signers).value, a2, signers2).Err?
    ensures RefundTx(TakeTx(s, a, signers).value, b, signers3).Err?
  {
    var s' := TakeTx(s, a, signers).value;
    ValidatedTake(s, a, signers);
    TakeClosesVault(s, a, signers);
    if TakeInstruction.ValidateAccounts(s', a2, signers2).Ok? {
      ValidatedTake(s', a2, signers2);
      assert false;
    }
  }

  /**
   * Once a `refund` has succeeded, no later `take` or `refund` of the same
   * record can.
   */
  lemma RefundConsumesOnce(s: State, b: RefundAccounts, signers: set<Signer>,
                           a2: TakeAccounts, signers2: set<Signer>, b2: RefundAccounts, signers3: set<Signer>)
    requires RefundTx(s, b, signers).Ok?
    requires a2.escrow == b.escrow && b2.escrow == b.escrow
    ensures TakeTx(RefundTx(s, b, signers).value, a2, signers2).Err?
    ensures RefundTx(RefundTx(s, b, signers).value, b2, signers3).Err?
  {
    var s' := RefundTx(s, b, signers).value;
    RefundEffect(s, b, signers);
    if TakeInstruction.ValidateAccounts(s', a2, signers2).Ok? {
      ValidatedTake(s', a2, signers2);
      assert false;
    }
  }

  /**
   * The record outlives its vault, so once anyone re-creates the vault at zero
   * (the associated-token program's `create` is open to every payer), the
   * same `take` succeeds again: the taker pays the receive amount a second
   * time and receives nothing.
   */
  lemma TakeRepeatsOnRecreatedVault(s: State, a: TakeAccounts, signers: set<Signer>)
    requires TakeTx(s, a, signers).Ok?
    requires a.taker != a.maker && a.mintA != a.mintB
    requires var s1 := TakeTx(s, a, signers).value;
      var r := s.escrows[a.escrow];
      && r.receiveAmount <= Bal(s1.tokens, TakerKeyB(a))
      && Bal(s1.tokens, MakerKeyB(a)) + r.receiveAmount <= U64_MAX
    ensures var s1 := TakeTx(s, a, signers).value;
      var r := s.escrows[a.escrow];
      && Create(s1.tokens, TakeInstruction.VaultKey(a)).Ok?
      && var s2 := State(s1.mints, Create(s1.tokens, TakeInstruction.VaultKey(a)).value, s1.escrows);
         && TakeTx(s2, a, signers).Ok?
         && var s3 := TakeTx(s2, a, signers).value;
            && Bal(s3.tokens, TakerKeyB(a)) == Bal(s1.tokens, TakerKeyB(a)) - r.receiveAmount
            && Bal(s3.tokens, MakerKeyB(a)) == Bal(s1.tokens, MakerKeyB(a)) + r.receiveAmount
            && Bal(s3.tokens, TakerKeyA(a)) == Bal(s1.tokens, TakerKeyA(a))
  {
    var s1 := TakeTx(s, a, signers).value;
    ValidatedTake(s, a, signers);
    TakeClosesVault(s, a, signers);
    TakeEffect(s, a, signers);
    var s2 := State(s1.mints, Create(s1.tokens, TakeInstruction.VaultKey(a)).value, s1.escrows);
    assert OpenedAccounts(s2.tokens, a) == s2.tokens;
    assert TakeInstruction.ValidateAccounts(s2, a, signers).Ok?;
    TakeSucceedsIff(s2, a, signers);
    TakeEffect(s2, a, signers);
  }

  /**
   * Neither `take` nor `refund` closes the record, so after either the same
   * maker can never `make` with the same seed again.
   */
  lemma SeedSlotOutlivesTake(s: State, bumpOf: (Pubkey, seq<u8>) -> u8, m: MakeAccounts, makeSigners: set<Signer>,
                             seed: u64, receiveAmount: u64, amount: u64, t: TakeAccounts, takeSigners: set<Signer>,
                             m2: MakeAccounts, signers2: set<Signer>, receiveAmount2: u64, amount2: u64)
    requires MakeTx(s, bumpOf, m, makeSigners, seed, receiveAmount, amount).Ok?
    requires TakeTx(MakeTx(s, bumpOf, m, makeSigners, seed, receiveAmount, amount).value, t, takeSigners).Ok?
    requires m2.maker == m.maker
    ensures var s2 := TakeTx(MakeTx(s, bumpOf, m, makeSigners, seed, receiveAmount, amount).value, t, takeSigners).value;
      MakeTx(s2, bumpOf, m2, signers2, seed, receiveAmount2, amount2).Err?
  {
    var s1 := MakeTx(s, bumpOf, m, makeSigners, seed, receiveAmount, amount).value;
    var s2 := TakeTx(s1, t, takeSigners).value;
    MakeStoresRecord(s, bumpOf, m, makeSigners, seed, receiveAmount, amount);
    TakeClosesVault(s1, t, takeSigners);
    MakeFailsIfRecordExists(s2, bumpOf, m2, signers2, seed, receiveAmount2, amount2);
  }

  /** The same after a `refund`. */
  lemma SeedSlotOutlivesRefund(s: State, bumpOf: (Pubkey, seq<u8>) -> u8, m: MakeAccounts, makeSigners: set<Signer>,
                               seed: u64, receiveAmount: u64, amount: u64, b: RefundAccounts, refundSigners: set<Signer>,
                               m2: MakeAccounts, signers2: set<Signer>, receiveAmount2: u64, amount2: u64)
    requires MakeTx(s, bumpOf, m, makeSigners, seed, receiveAmount, amount).Ok?
    requires RefundTx(MakeTx(s, bumpOf, m, makeSigners, seed, receiveAmount, amount).value, b, refundSigners).Ok?
    requires m2.maker == m.maker
    ensures var s2 := RefundTx(MakeTx(s, bumpOf, m, makeSigners, seed, receiveAmount, amount).value, b, refundSigners).value;
      MakeTx(s2, bumpOf, m2, signers2, seed, receiveAmount2, amount2).Err?
  {
    var s1 := MakeTx(s, bumpOf, m, makeSigners, seed, receiveAmount, amount).value;
    var s2 := RefundTx(s1, b, refundSigners).value;
    MakeStoresRecord(s, bumpOf, m, makeSigners, seed, receiveAmount, amount);
    RefundEffect(s1, b, refundSigners);
    MakeFailsIfRecordExists(s2, bumpOf, m2, signers2, seed, receiveAmount2, amount2);
  }

  /** Every instruction keeps each record at the address its own fields derive. */
  lemma InstructionsKeepRecordsAtOwnAddresses(s: State, bumpOf: (Pubkey, seq<u8>) -> u8,
                                              m: MakeAccounts, t: TakeAccounts, b: RefundAccounts, signers: set<Signer>,
                                              seed: u64, receiveAmount: u64, amount: u64)
    requires RecordsAtOwnAddresses(s)
    ensures MakeTx(s, bumpOf, m, signers, seed, receiveAmount, amount).Ok? ==>
      RecordsAtOwnAddresses(MakeTx(s, bumpOf, m, signers, seed, receiveAmount, amount).value)
    ensures TakeTx(s, t, signers).Ok? ==> RecordsAtOwnAddresses(TakeTx(s, t, signers).value)
    ensures RefundTx(s, b, signers).Ok? ==> RecordsAtOwnAddresses(RefundTx(s, b, signers).value)
  {
    if MakeTx(s, bumpOf, m, signers, seed, receiveAmount, amount).Ok? {
      MakeKeepsRecordsAtOwnAddresses(s, bumpOf, m, signers, seed, receiveAmount, amount);
    }
    if TakeTx(s, t, signers).Ok? {
      TakeClosesVault(s, t, signers);
    }
    if RefundTx(s, b, signers).Ok? {
      RefundEffect(s, b, signers);
    }
  }

  // ---- every later call -----------------------------------------------------

  /**
   * Every record's maker is a wallet, as `make` stores its signing maker: no maker
   * is one of this program's own derived addresses.
   */
  ghost predicate MakersAreWallets(s: State)
  {
    forall a :: a in s.escrows ==> s.escrows[a].maker.Wallet?
  }

  /** What every ledger reached from one without records satisfies. */
  ghost predicate Consistent(s: State)
  {
    RecordsAtOwnAddresses(s) && MakersAreWallets(s)
  }

  /** One call of an instruction with its accounts, signers and arguments. */
  datatype Call =
    | MakeCall(m: MakeAccounts, makeSigners: set<Signer>, seed: u64, receiveAmount: u64, amount: u64)
    | TakeCall(t: TakeAccounts, takeSigners: set<Signer>)
    | RefundCall(b: RefundAccounts, refundSigners: set<Signer>)

  function Execute(s: State, bumpOf: (Pubkey, seq<u8>) -> u8, c: Call): Result<State>
  {
    match c
    case MakeCall(m, signers, seed, receiveAmount, amount) => MakeTx(s, bumpOf, m, signers, seed, receiveAmount, amount)
    case TakeCall(t, signers) => TakeTx(s, t, signers)
    case RefundCall(b, signers) => RefundTx(s, b, signers)
  }

  /** The ledger after `calls` in order; a call that fails is rolled back and leaves the ledger as it was. */
  function Run(s: State, bumpOf: (Pubkey, seq<u8>) -> u8, calls: seq<Call>): State
    decreases |calls|
  {
    if calls == [] then s
    else
      var r := Execute(s, bumpOf, calls[0]);
      Run(if r.Ok? then r.value else s, bumpOf, calls[1..])
  }

  /** The vault of the record at `e` is closed and stays closed while the record stands. */
  ghost predicate VaultClosed(s: State, e: Pubkey)
  {
    e in s.escrows && TokenKey(s.escrows[e].mintA, e) !in s.tokens
  }

  /** `make` keeps the ledger consistent, and cannot reopen the vault of an existing record. */
  lemma MakeKeepsVaultClosed(s: State, bumpOf: (Pubkey, seq<u8>) -> u8, m: MakeAccounts, signers: set<Signer>,
                             seed: u64, receiveAmount: u64, amount: u64, e: Pubkey)
    requires Consistent(s) && VaultClosed(s, e)
    requires MakeTx(s, bumpOf, m, signers, seed, receiveAmount, amount).Ok?
    ensures var s' := MakeTx(s, bumpOf, m, signers, seed, receiveAmount, amount).value;
      Consistent(s') && VaultClosed(s', e) && s'.escrows[e] == s.escrows[e]
  {
    var s' := MakeTx(s, bumpOf, m, signers, seed, receiveAmount, amount).value;
    MakeSucceedsIff(s, bumpOf, m, signers, seed, receiveAmount, amount);
    MakeStoresRecord(s, bumpOf, m, signers, seed, receiveAmount, amount);
    MakeMovesAmount(s, bumpOf, m, signers, seed, receiveAmount, amount);
    MakeKeepsRecordsAtOwnAddresses(s, bumpOf, m, signers, seed, receiveAmount, amount);
    var r := s.escrows[e];
    assert !e.Wallet? by { assert e == EscrowAddress(r.maker, r.seed, r.bump); }
    assert TokenKey(r.mintA, e) != MakeInstruction.MakerKeyA(m);
  }

  /** `take` keeps the ledger consistent, and cannot reopen the vault of a record whose vault is closed. */
  lemma TakeKeepsVaultClosed(s: State, t: TakeAccounts, signers: set<Signer>, e: Pubkey)
    requires Consistent(s) && VaultClosed(s, e)
    requires TakeTx(s, t, signers).Ok?
    ensures var s' := TakeTx(s, t, signers).value;
      Consistent(s') && VaultClosed(s', e) && s'.escrows[e] == s.escrows[e]
  {
    ValidatedTake(s, t, signers);
    var r := s.escrows[e];
    assert !e.Wallet? by { assert e == EscrowAddress(r.maker, r.seed, r.bump); }
    assert s.escrows[t.escrow].maker.Wallet?;
    TakeTouchesOnlyItsAccounts(s, t, signers, TokenKey(r.mintA, e));
  }

  /** `refund` keeps the ledger consistent, and cannot reopen the vault of a record whose vault is closed. */
  lemma RefundKeepsVaultClosed(s: State, b: RefundAccounts, signers: set<Signer>, e: Pubkey)
    requires Consistent(s) && VaultClosed(s, e)
    requires RefundTx(s, b, signers).Ok?
    ensures var s' := RefundTx(s, b, signers).value;
      Consistent(s') && VaultClosed(s', e) && s'.escrows[e] == s.escrows[e]
  {
    RefundEffect(s, b, signers);
  }

  /**
   * Whatever calls follow, the ledger stays consistent, the record at `e`
   * stays as it was and its vault stays closed.
   */
  lemma {:induction false} RunKeepsVaultClosed(s: State, bumpOf: (Pubkey, seq<u8>) -> u8, calls: seq<Call>, e: Pubkey)
    requires Consistent(s) && VaultClosed(s, e)
    ensures var s' := Run(s, bumpOf, calls);
      Consistent(s') && VaultClosed(s', e) && s'.escrows[e] == s.escrows[e]
    decreases |calls|
  {
    if calls != [] {
      var r := Execute(s, bumpOf, calls[0]);
      if r.Ok? {
        match calls[0]
        case MakeCall(m, signers, seed, receiveAmount, amount) =>
          MakeKeepsVaultClosed(s, bumpOf, m, signers, seed, receiveAmount, amount, e);
        case TakeCall(t, signers) =>
          TakeKeepsVaultClosed(s, t, signers, e);
        case RefundCall(b, signers) =>
          RefundKeepsVaultClosed(s, b, signers, e);
      }
      RunKeepsVaultClosed(if r.Ok? then r.value else s, bumpOf, calls[1..], e);
    }
  }

  /** With its vault closed, a record can be neither taken nor refunded. */
  lemma ClosedVaultBlocks(s: State, e: Pubkey, a: TakeAccounts, signers: set<Signer>,
                          b: RefundAccounts, signers2: set<Signer>)
    requires VaultClosed(s, e) && a.escrow == e && b.escrow == e
    ensures TakeTx(s, a, signers).Err? && RefundTx(s, b, signers2).Err?
  {
    if TakeInstruction.ValidateAccounts(s, a, signers).Ok? {
      ValidatedTake(s, a, signers);
      assert false;
    }
  }

  /**
   * From a consistent ledger, once a `take` has succeeded, no `take` or
   * `refund` of the same record succeeds after any sequence of further calls.
   */
  lemma TakeConsumesForever(s: State, bumpOf: (Pubkey, seq<u8>) -> u8, a: TakeAccounts, signers: set<Signer>,
                            calls: seq<Call>, a2: TakeAccounts, signers2: set<Signer>, b: RefundAccounts, signers3: set<Signer>)
    requires Consistent(s)
    requires TakeTx(s, a, signers).Ok?
    requires a2.escrow == a.escrow && b.escrow == a.escrow
    ensures var s' := Run(TakeTx(s, a, signers).value, bumpOf, calls);
      TakeTx(s', a2, signers2).Err? && RefundTx(s', b, signers3).Err?
  {
    var s1 := TakeTx(s, a, signers).value;
    ValidatedTake(s, a, signers);
    TakeClosesVault(s, a, signers);
    assert s1.escrows == s.escrows;
    assert TokenKey(s1.escrows[a.escrow].mintA, a.escrow) == TakeInstruction.VaultKey(a);
    assert s.escrows[a.escrow].maker.Wallet?;
    assert Consistent(s1);
    RunKeepsVaultClosed(s1, bumpOf, calls, a.escrow);
    ClosedVaultBlocks(Run(s1, bumpOf, calls), a.escrow, a2, signers2, b, signers3);
  }

  /**
   * From a consistent ledger, once a `refund` has succeeded, no `take` or
   * `refund` of the same record succeeds after any sequence of further calls.
   */
  lemma RefundConsumesForever(s: State, bumpOf: (Pubkey, seq<u8>) -> u8, b: RefundAccounts, signers: set<Signer>,
                              calls: seq<Call>, a2: TakeAccounts, signers2: set<Signer>, b2: RefundAccounts, signers3: set<Signer>)
    requires Consistent(s)
    requires RefundTx(s, b, signers).Ok?
    requires a2.escrow == b.escrow && b2.escrow == b.escrow
    ensures var s' := Run(RefundTx(s, b, signers).value, bumpOf, calls);
      TakeTx(s', a2, signers2).Err? && RefundTx(s', b2, signers3).Err?
  {
    var s1 := RefundTx(s, b, signers).value;
    RefundEffect(s, b, signers);
    assert Consistent(s1);
    RunKeepsVaultClosed(s1, bumpOf, calls, b.escrow);
    ClosedVaultBlocks(Run(s1, bumpOf, calls), b.escrow, a2, signers2, b2, signers3);
  }

  /**
   * Every instruction keeps the ledger consistent, since `make` stores its
   * signing maker; so every ledger reached from one without records is.
   */
  lemma {:induction false} RunKeepsConsistent(s: State, bumpOf: (Pubkey, seq<u8>) -> u8, calls: seq<Call>)
    requires Consistent(s)
    ensures Consistent(Run(s, bumpOf, calls))
    decreases |calls|
  {
    if calls != [] {
      var r := Execute(s, bumpOf, calls[0]);
      if r.Ok? {
        match calls[0]
        case MakeCall(m, signers, seed, receiveAmount, amount) =>
          MakeSucceedsIff(s, bumpOf, m, signers, seed, receiveAmount, amount);
          MakeStoresRecord(s, bumpOf, m, signers, seed, receiveAmount, amount);
          MakeKeepsRecordsAtOwnAddresses(s, bumpOf, m, signers, seed, receiveAmount, amount);
        case TakeCall(t, signers) =>
          TakeClosesVault(s, t, signers);
        case RefundCall(b, signers) =>
          RefundEffect(s, b, signers);
      }
      RunKeepsConsistent(if r.Ok? then r.value else s, bumpOf, calls[1..]);
    }
  }
}
