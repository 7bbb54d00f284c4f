/**
 * The on-chain state the escrow program reads and writes: mints, token
 * accounts and escrow records. The `Ledger` class holds it and performs the
 * token program calls in place; `State` is its value.
 */
module Ledger {
  import opened Solana
  import opened Token
  import opened EscrowRecord

  datatype State = State(mints: Mints, tokens: Balances, escrows: map<Pubkey, EscrowState>)

  /** Every escrow account sits at the address its own record derives. */
  ghost predicate RecordsAtOwnAddresses(s: State)
  {
    forall a :: a in s.escrows ==> a == EscrowAddress(s.escrows[a].maker, s.escrows[a].seed, s.escrows[a].bump)
  }

  class Ledger {
    var mints: Mints
    var tokens: Balances
    var escrows: map<Pubkey, EscrowState>

    /**
     * The bump `find_program_address` returns for the escrow seeds
     * `["escrow", maker, seed bytes]`; the search for an off-curve point is
     * the runtime's, so the model keeps it abstract.
     */
    const bumpOf: (Pubkey, seq<u8>) -> u8

    constructor (s: State, bumpOf: (Pubkey, seq<u8>) -> u8)
      ensures View() == s && this.bumpOf == bumpOf
    {
      mints, tokens, escrows := s.mints, s.tokens, s.escrows;
      this.bumpOf := bumpOf;
    }

    function View(): State
      reads this
    {
      State(mints, tokens, escrows)
    }

    /** The runtime discarding every change of a failed instruction. */
    method Restore(s: State)
      modifies this
      ensures View() == s
    {
      mints, tokens, escrows := s.mints, s.tokens, s.escrows;
    }

    /** The `transfer_checked` call: debit `from`, then credit `to`. */
    method TransferChecked(from: TokenKey, to: TokenKey, mint: Pubkey, amount: u64, decimals: u8,
                           authority: Pubkey, signers: set<Pubkey>) returns (r: Outcome)
      modifies this
      ensures var o := Transfer(old(tokens), old(mints), from, to, mint, amount, decimals, authority, signers);
        && r == OutcomeOf(o)
        && tokens == (if o.Ok? then o.value else old(tokens))
      ensures mints == old(mints) && escrows == old(escrows)
    {
      if from !in tokens || to !in tokens { return Fail(AccountNotInitialized); }
      if tokens[from] < amount { return Fail(InsufficientFunds); }
      if from.mint != to.mint || mint != from.mint || mint !in mints { return Fail(MintMismatch); }
      if decimals != mints[mint] { return Fail(MintDecimalsMismatch); }
      if authority != from.owner { return Fail(OwnerMismatch); }
      if authority !in signers { return Fail(MissingRequiredSignature); }
      if from != to {
        if tokens[to] + amount > U64_MAX { return Fail(Overflow); }
        tokens := tokens[from := tokens[from] - amount];
        tokens := tokens[to := tokens[to] + amount];
      }
      r := Pass;
    }

    /** The `close_account` call. */
    method CloseAccount(account: TokenKey, authority: Pubkey, signers: set<Pubkey>) returns (r: Outcome)
      modifies this
      ensures var o := Close(old(tokens), account, authority, signers);
        && r == OutcomeOf(o)
        && tokens == (if o.Ok? then o.value else old(tokens))
      ensures mints == old(mints) && escrows == old(escrows)
    {
      if account !in tokens { return Fail(AccountNotInitialized); }
      if tokens[account] != 0 { return Fail(NonNativeHasBalance); }
      if authority != account.owner { return Fail(OwnerMismatch); }
      if authority !in signers { return Fail(MissingRequiredSignature); }
      tokens := tokens - {account};
      r := Pass;
    }

    /** `init` of an associated token account. */
    method CreateAccount(k: TokenKey) returns (r: Outcome)
      modifies this
      ensures var o := Create(old(tokens), k);
        && r == OutcomeOf(o)
        && tokens == (if o.Ok? then o.value else old(tokens))
      ensures mints == old(mints) && escrows == old(escrows)
    {
      if k in tokens { return Fail(AccountAlreadyInUse); }
      tokens := tokens[k := 0];
      r := Pass;
    }

    /** `init_if_needed` of an associated token account. */
    method CreateAccountIfNeeded(k: TokenKey)
      modifies this
      ensures tokens == CreateIfNeeded(old(tokens), k)
      ensures mints == old(mints) && escrows == old(escrows)
    {
      if k !in tokens {
        tokens := tokens[k := 0];
      }
    }

    /** `init` of an escrow account at `a`: allocated and zeroed. */
    method AllocateEscrow(a: Pubkey) returns (r: Outcome)
      modifies this
      ensures r.Pass? <==> a !in old(escrows)
      ensures r.Fail? ==> r.error == AccountAlreadyInUse && escrows == old(escrows)
      ensures r.Pass? ==> escrows == old(escrows)[a := ZeroedRecord]
      ensures mints == old(mints) && tokens == old(tokens)
    {
      if a in escrows { return Fail(AccountAlreadyInUse); }
      escrows := escrows[a := ZeroedRecord];
      r := Pass;
    }

    /** `set_inner`: overwrite the record at `a`. */
    method WriteEscrow(a: Pubkey, record: EscrowState)
      modifies this
      ensures escrows == old(escrows)[a := record]
      ensures mints == old(mints) && tokens == old(tokens)
    {
      escrows := escrows[a := record];
    }
  }
}
