/**
 * The token program as the escrow program uses it: token accounts identified
 * by (mint, owner) at their associated addresses, `transfer_checked`,
 * `close_account` and account creation, and the supply of each mint.
 */
module Token {
  import opened Solana

  /** A token account, named by the mint it holds and the key that owns it. */
  datatype TokenKey = TokenKey(mint: Pubkey, owner: Pubkey)

  /** The existing token accounts and their balances. */
  type Balances = map<TokenKey, u64>

  /** The existing mints and their decimals. */
  type Mints = map<Pubkey, u8>

  /** The associated token account address for `k`'s owner and mint. */
  function AtaAddress(k: TokenKey): Pubkey
  {
    AssociatedAddress(k.owner, k.mint)
  }

  lemma AtaAddressInjective(k1: TokenKey, k2: TokenKey)
    requires AtaAddress(k1) == AtaAddress(k2)
    ensures k1 == k2
  {
  }

  /** Balance of `k`, zero for an account that does not exist. */
  function Bal(t: Balances, k: TokenKey): u64
  {
    if k in t then t[k] else 0
  }

  /**
   * `transfer_checked(from, to, mint, amount, decimals)` signed by `authority`,
   * with the token program's checks in its own order. A transfer to the same
   * account succeeds and changes nothing.
   */
  function Transfer(t: Balances, mints: Mints, from: TokenKey, to: TokenKey, mint: Pubkey,
                    amount: u64, decimals: u8, authority: Pubkey, signers: set<Pubkey>): (r: Result<Balances>)
    ensures r.Ok? ==> from in t && to in t && amount <= t[from]
  {
    if from !in t || to !in t then Err(AccountNotInitialized)
    else if t[from] < amount then Err(InsufficientFunds)
    else if from.mint != to.mint || mint != from.mint || mint !in mints then Err(MintMismatch)
    else if decimals != mints[mint] then Err(MintDecimalsMismatch)
    else if authority != from.owner then Err(OwnerMismatch)
    else if authority !in signers then Err(MissingRequiredSignature)
    else if from == to then Ok(t)
    else if t[to] + amount > U64_MAX then Err(Overflow)
    else Ok(t[from := t[from] - amount][to := t[to] + amount])
  }

  /** `close_account(account)` signed by `authority`: only an empty account closes. */
  function Close(t: Balances, account: TokenKey, authority: Pubkey, signers: set<Pubkey>): (r: Result<Balances>)
    ensures r.Ok? ==> account in t && t[account] == 0 && r.value.Keys == t.Keys - {account}
    ensures r.Ok? ==> forall j :: j in r.value ==> r.value[j] == t[j]
  {
    if account !in t then Err(AccountNotInitialized)
    else if t[account] != 0 then Err(NonNativeHasBalance)
    else if authority != account.owner then Err(OwnerMismatch)
    else if authority !in signers then Err(MissingRequiredSignature)
    else Ok(t - {account})
  }

  /** `init` of an associated token account: fails if it already exists. */
  function Create(t: Balances, k: TokenKey): (r: Result<Balances>)
    ensures r.Ok? <==> k !in t
    ensures r.Ok? ==> r.value.Keys == t.Keys + {k} && r.value[k] == 0
    ensures r.Ok? ==> forall j :: j in t ==> r.value[j] == t[j]
  {
    if k in t then Err(AccountAlreadyInUse) else Ok(t[k := 0])
  }

  /** `init_if_needed` of an associated token account. */
  function CreateIfNeeded(t: Balances, k: TokenKey): Balances
  {
    if k in t then t else t[k := 0]
  }

  /** `init_if_needed` leaves the account existing with its balance, and every other account as it was. */
  lemma CreateIfNeededOpens(t: Balances, k: TokenKey)
    ensures var t' := CreateIfNeeded(t, k);
      && t'.Keys == t.Keys + {k} && Bal(t', k) == Bal(t, k)
      && forall j :: j in t ==> t'[j] == t[j]
  {
  }

  /** A transfer moves exactly `amount` from `from` to `to` and touches nothing else. */
  lemma TransferMoves(t: Balances, mints: Mints, from: TokenKey, to: TokenKey, mint: Pubkey,
                      amount: u64, decimals: u8, authority: Pubkey, signers: set<Pubkey>)
    requires Transfer(t, mints, from, to, mint, amount, decimals, authority, signers).Ok?
    requires from != to
    ensures var t' := Transfer(t, mints, from, to, mint, amount, decimals, authority, signers).value;
      && t'.Keys == t.Keys
      && t'[from] == t[from] - amount && t'[to] == t[to] + amount
      && forall k :: k in t && k != from && k != to ==> t'[k] == t[k]
  {
  }

  /**
   * Only the owner of the source account, having signed, can move its tokens;
   * the requested decimals equal the mint's, and the balance covers the amount.
   */
  lemma TransferAuthorised(t: Balances, mints: Mints, from: TokenKey, to: TokenKey, mint: Pubkey,
                           amount: u64, decimals: u8, authority: Pubkey, signers: set<Pubkey>)
    requires Transfer(t, mints, from, to, mint, amount, decimals, authority, signers).Ok?
    ensures authority == from.owner && from.owner in signers
    ensures mint in mints && decimals == mints[mint] && amount <= Bal(t, from)
  {
  }

  /**
   * No set of wallet signatures can move or close an account that a derived
   * address owns: such an account answers only to a program signing with the
   * seeds that derive its owner.
   */
  lemma DerivedOwnerNeedsProgramSignature(t: Balances, mints: Mints, from: TokenKey, to: TokenKey, mint: Pubkey,
                                          amount: u64, decimals: u8, authority: Pubkey, signers: set<Signer>)
    requires !from.owner.Wallet?
    ensures Transfer(t, mints, from, to, mint, amount, decimals, authority, signers).Err?
    ensures Close(t, from, authority, signers).Err?
  {
  }

  // ---- supply of a mint ---------------------------------------------------

  function AmountOf(t: Balances, k: TokenKey, mint: Pubkey): nat
  {
    if k in t && k.mint == mint then t[k] else 0
  }

  /** Sum of the balances of `mint` over the accounts in `ks`. */
  ghost function SumOver(t: Balances, ks: set<TokenKey>, mint: Pubkey): nat
    decreases ks
  {
    if ks == {} then 0
    else
      var k :| k in ks;
      AmountOf(t, k, mint) + SumOver(t, ks - {k}, mint)
  }

  /** Total amount of `mint` held across all token accounts. */
  ghost function Supply(t: Balances, mint: Pubkey): nat
  {
    SumOver(t, t.Keys, mint)
  }

  lemma {:induction false} SumOverSplit(t: Balances, ks: set<TokenKey>, mint: Pubkey, k: TokenKey)
    requires k in ks
    ensures SumOver(t, ks, mint) == AmountOf(t, k, mint) + SumOver(t, ks - {k}, mint)
    decreases ks
  {
    var j :| j in ks && SumOver(t, ks, mint) == AmountOf(t, j, mint) + SumOver(t, ks - {j}, mint);
    if j != k {
      SumOverSplit(t, ks - {j}, mint, k);
      SumOverSplit(t, ks - {k}, mint, j);
      assert ks - {j} - {k} == ks - {k} - {j};
    }
  }

  lemma {:induction false} SumOverFrame(t: Balances, t': Balances, ks: set<TokenKey>, mint: Pubkey)
    requires forall k :: k in ks ==> AmountOf(t, k, mint) == AmountOf(t', k, mint)
    ensures SumOver(t, ks, mint) == SumOver(t', ks, mint)
    decreases ks
  {
    if ks != {} {
      var k :| k in ks;
      SumOverSplit(t, ks, mint, k);
      SumOverSplit(t', ks, mint, k);
      SumOverFrame(t, t', ks - {k}, mint);
    }
  }

  /** Rewriting one existing balance changes the supply by the difference. */
  lemma SupplyUpdate(t: Balances, k: TokenKey, v: u64, mint: Pubkey)
    requires k in t
    ensures Supply(t[k := v], mint) + AmountOf(t, k, mint) == Supply(t, mint) + AmountOf(t[k := v], k, mint)
  {
    var t' := t[k := v];
    assert t'.Keys == t.Keys;
    SumOverSplit(t, t.Keys, mint, k);
    SumOverSplit(t', t.Keys, mint, k);
    SumOverFrame(t, t', t.Keys - {k}, mint);
  }

  /** Opening an empty account leaves every supply as it was. */
  lemma SupplyInsertZero(t: Balances, k: TokenKey, mint: Pubkey)
    requires k !in t
    ensures Supply(t[k := 0], mint) == Supply(t, mint)
  {
    var t' := t[k := 0];
    assert t'.Keys - {k} == t.Keys;
    SumOverSplit(t', t'.Keys, mint, k);
    SumOverFrame(t, t', t.Keys, mint);
  }

  /** Closing an empty account leaves every supply as it was. */
  lemma SupplyRemoveZero(t: Balances, k: TokenKey, mint: Pubkey)
    requires k in t && t[k] == 0
    ensures Supply(t - {k}, mint) == Supply(t, mint)
  {
    var t' := t - {k};
    assert t'[k := 0] == t;
    SupplyInsertZero(t', k, mint);
  }

  lemma TransferConservesSupply(t: Balances, mints: Mints, from: TokenKey, to: TokenKey, mint: Pubkey,
                                amount: u64, decimals: u8, authority: Pubkey, signers: set<Pubkey>, m: Pubkey)
    requires Transfer(t, mints, from, to, mint, amount, decimals, authority, signers).Ok?
    ensures Supply(Transfer(t, mints, from, to, mint, amount, decimals, authority, signers).value, m) == Supply(t, m)
  {
    if from != to {
      var t1 := t[from := t[from] - amount];
      SupplyUpdate(t, from, t[from] - amount, m);
      SupplyUpdate(t1, to, t[to] + amount, m);
    }
  }

  lemma CloseConservesSupply(t: Balances, account: TokenKey, authority: Pubkey, signers: set<Pubkey>, m: Pubkey)
    requires Close(t, account, authority, signers).Ok?
    ensures Supply(Close(t, account, authority, signers).value, m) == Supply(t, m)
  {
    SupplyRemoveZero(t, account, m);
  }

  lemma CreateConservesSupply(t: Balances, k: TokenKey, m: Pubkey)
    requires Create(t, k).Ok?
    ensures Supply(Create(t, k).value, m) == Supply(t, m)
    ensures Supply(CreateIfNeeded(t, k), m) == Supply(t, m)
  {
    SupplyInsertZero(t, k, m);
  }
}
