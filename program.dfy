/**
 * The program's three instructions, `make`, `take` and `refund`: each runs
 * its account checks and then its steps in order, stops at the first
 * error, and on an error the runtime rolls the whole instruction back.
 */
module EscrowProgram {
  import opened Solana
  import opened Token
  import opened EscrowRecord
  import opened Ledger
  import MakeInstruction
  import TakeInstruction
  import RefundInstruction

  /** `make(seed, receive_amount, amount)`: the new state, or the first error. */
  function MakeTx(s: State, bumpOf: (Pubkey, seq<u8>) -> u8, acc: MakeInstruction.MakeAccounts,
                  signers: set<Signer>, seed: u64, receiveAmount: u64, amount: u64): (r: Result<State>)
    ensures r.Ok? ==> && acc.escrow !in s.escrows && acc.escrow in r.value.escrows
                      && r.value.escrows.Keys == s.escrows.Keys + {acc.escrow} && r.value.mints == s.mints
  {
    var bump := MakeInstruction.MakeBump(bumpOf, acc, seed);
    var s1 :- MakeInstruction.ValidateAccounts(s, acc, signers, seed, bump);
    var s2 := MakeInstruction.InitEscrowStateStep(s1, acc, seed, receiveAmount, bump);
    MakeInstruction.DepositStep(s2, acc, signers, amount)
  }

  /**
   * `take()`. Modelling assumption: the handler calls `deposit` with the
   * record's `receive_amount` and `mint_b`'s decimals, then `withdraw`,
   * then `close_vault`.
   */
  function TakeTx(s: State, acc: TakeInstruction.TakeAccounts, signers: set<Signer>): (r: Result<State>)
    ensures r.Ok? ==> acc.escrow in s.escrows && r.value.escrows == s.escrows && r.value.mints == s.mints
  {
    var s1 :- TakeInstruction.ValidateAccounts(s, acc, signers);
    TakeSteps(s1, acc, signers)
  }

  /** The `take` handler body, run on the state the account phase left. */
  function TakeSteps(s1: State, acc: TakeInstruction.TakeAccounts, signers: set<Signer>): (r: Result<State>)
    requires acc.escrow in s1.escrows && acc.mintA in s1.mints && acc.mintB in s1.mints
    ensures r.Ok? ==> r.value.mints == s1.mints && r.value.escrows == s1.escrows
  {
    var record := s1.escrows[acc.escrow];
    var s2 :- TakeInstruction.DepositStep(s1, acc, signers, record.receiveAmount, s1.mints[acc.mintB]);
    var s3 :- TakeInstruction.WithdrawStep(s2, acc, signers);
    TakeInstruction.CloseVaultStep(s3, acc, signers)
  }

  /** `refund()`: exactly `refund_and_close_vault` after the account checks. */
  function RefundTx(s: State, acc: RefundInstruction.RefundAccounts, signers: set<Signer>): (r: Result<State>)
    ensures r.Ok? ==> && acc.escrow in s.escrows && r.value.escrows == s.escrows && r.value.mints == s.mints
                      && RefundInstruction.VaultKey(acc) in s.tokens && RefundInstruction.VaultKey(acc) !in r.value.tokens
  {
    match RefundInstruction.ValidateAccounts(s, acc, signers)
    case Fail(e) => Err(e)
    case Pass => RefundInstruction.RefundAndCloseVaultStep(s, acc, signers)
  }

  /** The `make` instruction: all of it or none of it. */
  method Make(l: Ledger, acc: MakeInstruction.MakeAccounts, signers: set<Signer>,
              seed: u64, receiveAmount: u64, amount: u64) returns (r: Outcome)
    modifies l
    ensures var o := MakeTx(old(l.View()), l.bumpOf, acc, signers, seed, receiveAmount, amount);
      && r == OutcomeOf(o)
      && l.View() == (if o.Ok? then o.value else old(l.View()))
  {
    var saved := l.View();
    var bump;
    r, bump := MakeInstruction.ValidateMakeAccounts(l, acc, signers, seed);
    if r.Pass? {
      MakeInstruction.InitEscrowState(l, acc, seed, receiveAmount, bump);
      r := MakeInstruction.Deposit(l, acc, signers, amount);
    }
    if r.Fail? {
      l.Restore(saved);
    }
  }

  /** The `take` instruction: the maker is paid before the vault is released. */
  method Take(l: Ledger, acc: TakeInstruction.TakeAccounts, signers: set<Signer>) returns (r: Outcome)
    modifies l
    ensures var o := TakeTx(old(l.View()), acc, signers);
      && r == OutcomeOf(o)
      && l.View() == (if o.Ok? then o.value else old(l.View()))
  {
    var saved := l.View();
    r := TakeInstruction.ValidateTakeAccounts(l, acc, signers);
    if r.Pass? {
      var record := l.escrows[acc.escrow];
      r := TakeInstruction.Deposit(l, acc, signers, record.receiveAmount, l.mints[acc.mintB]);
    }
    if r.Pass? {
      r := TakeInstruction.Withdraw(l, acc, signers);
    }
    if r.Pass? {
      r := TakeInstruction.CloseVault(l, acc, signers);
    }
    if r.Fail? {
      l.Restore(saved);
    }
  }

  /** The `refund` instruction: all of it or none of it. */
  method Refund(l: Ledger, acc: RefundInstruction.RefundAccounts, signers: set<Signer>) returns (r: Outcome)
    modifies l
    ensures var o := RefundTx(old(l.View()), acc, signers);
      && r == OutcomeOf(o)
      && l.View() == (if o.Ok? then o.value else old(l.View()))
  {
    var saved := l.View();
    r := RefundInstruction.ValidateAccounts(l.View(), acc, signers);
    if r.Pass? {
      r := RefundInstruction.RefundAndCloseVault(l, acc, signers);
    }
    if r.Fail? {
      l.Restore(saved);
    }
  }
}
