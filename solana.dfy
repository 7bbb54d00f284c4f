/**
 * What the escrow program takes from its runtime: fixed-width integers,
 * account addresses, program-derived addresses, transaction signers and the
 * errors the runtime, Anchor's account checks and the token program report.
 */
module Solana {

  /** Rust `u8`. */
  type u8 = x: int | 0 <= x < 0x100

  /** Rust `u64`. */
  const U64_MAX: int := 0xFFFF_FFFF_FFFF_FFFF
  type u64 = x: int | 0 <= x <= U64_MAX

  /**
   * An account address. Keys with a private key are `Wallet`s; the other two
   * kinds are derived addresses that lie off the curve, and so have no private
   * key: a program address derived from a tag, a base key, seed bytes and a
   * bump, and the associated token account of a wallet for a mint. Distinct
   * constructors and arguments are distinct addresses: this stands for the
   * collision resistance of the hash behind address derivation.
   */
  datatype Pubkey =
    | Wallet(id: nat)
    | ProgramAddress(tag: seq<u8>, base: Pubkey, seedBytes: seq<u8>, bump: u8)
    | AssociatedAddress(wallet: Pubkey, mint: Pubkey)

  /** A key that can sign a transaction: only keys that have a private key. */
  type Signer = k: Pubkey | k.Wallet? witness Wallet(0)

  /** `create_program_address(&[tag, base, seedBytes, &[bump]], program_id)`. */
  function Derive(tag: seq<u8>, base: Pubkey, seedBytes: seq<u8>, bump: u8): (a: Pubkey)
    ensures !a.Wallet?
  {
    ProgramAddress(tag, base, seedBytes, bump)
  }

  /** Derivation is injective: equal addresses come from equal inputs. */
  lemma DeriveInjective(t1: seq<u8>, b1: Pubkey, s1: seq<u8>, n1: u8, t2: seq<u8>, b2: Pubkey, s2: seq<u8>, n2: u8)
    requires Derive(t1, b1, s1, n1) == Derive(t2, b2, s2, n2)
    ensures t1 == t2 && b1 == b2 && s1 == s2 && n1 == n2
  {
  }

  /** Errors from Anchor's account validation and from the token program. */
  datatype Error =
    | AccountNotSigner          // a `Signer` account did not sign
    | AccountNotInitialized     // a required account does not exist
    | AccountAlreadyInUse       // `init` on an address that already holds an account
    | ConstraintSeeds           // the address is not the one the seeds derive
    | ConstraintHasOne          // a `has_one` field of the record differs from the account given
    | ConstraintAssociated      // the address is not the associated token account required
    | InsufficientFunds         // token balance below the transfer amount
    | MintMismatch              // token accounts of a different mint
    | MintDecimalsMismatch      // `transfer_checked` given the wrong decimals
    | OwnerMismatch             // the authority is not the token account's owner
    | MissingRequiredSignature  // the authority did not sign
    | Overflow                  // a credit would exceed a u64 balance
    | NonNativeHasBalance       // closing a token account that still holds tokens

  /** The `Result<T>` of an instruction or a cross-program call. */
  datatype Result<T> = Ok(value: T) | Err(error: Error) {
    predicate IsFailure() { Err? }

    function PropagateFailure<U>(): Result<U>
      requires Err?
    {
      Err(error)
    }

    function Extract(): T
      requires Ok?
    {
      value
    }
  }

  /** The `Result<()>` a state-changing step returns. */
  datatype Outcome = Pass | Fail(error: Error)

  function OutcomeOf<T>(r: Result<T>): (o: Outcome)
    ensures o.Pass? <==> r.Ok?
    ensures o.Fail? ==> o.error == r.error
  {
    if r.Ok? then Pass else Fail(r.error)
  }
}
