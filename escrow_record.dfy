/**
 * The escrow record (`EscrowState`), its allocated size, the little-endian
 * seed bytes and the address the record lives at.
 */
module EscrowRecord {
  import opened Solana

  /** One open trade: fields in declaration order. */
  datatype EscrowState = EscrowState(
    seed: u64,
    bump: u8,
    mintA: Pubkey,
    mintB: Pubkey,
    receiveAmount: u64,
    maker: Pubkey)

  /** The record as `init` allocates it, before `set_inner` fills it: all zero. */
  const ZeroedRecord: EscrowState := EscrowState(0, 0, Wallet(0), Wallet(0), 0, Wallet(0))

  /** Anchor's account discriminator that precedes the record's fields. */
  const DISCRIMINATOR_LEN: nat := 8
  const PUBKEY_LEN: nat := 32

  /** Bytes allocated for an escrow account. */
  const INIT_SPACE: nat := 8 + 8 + 1 + 32 + 32 + 32 + 8

  /** Borsh widths of the record's fields, in declaration order. */
  function FieldWidths(): seq<nat>
  {
    [8, 1, PUBKEY_LEN, PUBKEY_LEN, 8, PUBKEY_LEN]
  }

  function Total(w: seq<nat>): nat
  {
    if w == [] then 0 else w[0] + Total(w[1..])
  }

  /**
   * The record's Borsh encoding after the discriminator: each field in
   * declaration order, integers little-endian at their width and each key
   * as its raw bytes. Keys are abstract here, so their byte form is the
   * parameter `keyBytes`.
   */
  function EncodeRecord(r: EscrowState, keyBytes: Pubkey -> seq<u8>): seq<u8>
  {
    LeBytes(r.seed, 8) + [r.bump] + keyBytes(r.mintA) + keyBytes(r.mintB)
      + LeBytes(r.receiveAmount, 8) + keyBytes(r.maker)
  }

  /** Every record encodes to the sum of the field widths, whatever its contents. */
  lemma RecordEncodingLength(r: EscrowState, keyBytes: Pubkey -> seq<u8>)
    requires forall k :: |keyBytes(k)| == PUBKEY_LEN
    ensures |EncodeRecord(r, keyBytes)| == Total(FieldWidths())
  {
    assert |keyBytes(r.mintA)| == |keyBytes(r.mintB)| == |keyBytes(r.maker)| == PUBKEY_LEN;
    var w := FieldWidths();
    assert w[1..][1..][1..][1..][1..][1..] == [];
    assert Total(w[1..][1..][1..][1..][1..]) == PUBKEY_LEN;
    assert Total(w[1..][1..][1..][1..]) == 8 + PUBKEY_LEN;
    assert Total(w[1..][1..]) == 8 + 3 * PUBKEY_LEN;
  }

  /**
   * Each field sits at its declaration-order offset in the encoding and
   * decodes back to the record's value.
   */
  lemma RecordEncodingFields(r: EscrowState, keyBytes: Pubkey -> seq<u8>)
    requires forall k :: |keyBytes(k)| == PUBKEY_LEN
    ensures var e := EncodeRecord(r, keyBytes);
      && |e| == 113
      && FromLe(e[0..8]) == r.seed && e[8] == r.bump
      && e[9..41] == keyBytes(r.mintA) && e[41..73] == keyBytes(r.mintB)
      && FromLe(e[73..81]) == r.receiveAmount && e[81..113] == keyBytes(r.maker)
  {
    var e := EncodeRecord(r, keyBytes);
    Le8RoundTrip(r.seed);
    Le8RoundTrip(r.receiveAmount);
    assert e[0..8] == LeBytes(r.seed, 8);
    assert e[73..81] == LeBytes(r.receiveAmount, 8);
  }

  /** The allocation is exactly the discriminator plus the encoded record, 121 bytes. */
  lemma InitSpaceCoversRecord(r: EscrowState, keyBytes: Pubkey -> seq<u8>)
    requires forall k :: |keyBytes(k)| == PUBKEY_LEN
    ensures INIT_SPACE == DISCRIMINATOR_LEN + |EncodeRecord(r, keyBytes)|
    ensures INIT_SPACE == 121
  {
    RecordEncodingLength(r, keyBytes);
  }

  function Pow256(n: nat): (p: nat)
    ensures p > 0
  {
    if n == 0 then 1 else 256 * Pow256(n - 1)
  }

  /** The `n` low-order bytes of `x`, least significant first. */
  function LeBytes(x: nat, n: nat): (b: seq<u8>)
    ensures |b| == n
  {
    if n == 0 then [] else [x % 256] + LeBytes(x / 256, n - 1)
  }

  /** The number whose little-endian bytes are `b`. */
  function FromLe(b: seq<u8>): nat
  {
    if b == [] then 0 else b[0] + 256 * FromLe(b[1..])
  }

  lemma {:induction false} LeBytesRoundTrip(x: nat, n: nat)
    requires x < Pow256(n)
    ensures FromLe(LeBytes(x, n)) == x
  {
    if n > 0 {
      assert x / 256 < Pow256(n - 1);
      LeBytesRoundTrip(x / 256, n - 1);
      assert LeBytes(x, n)[1..] == LeBytes(x / 256, n - 1);
    }
  }

  /** `u64::to_le_bytes`. */
  function Le8(x: u64): (b: seq<u8>)
    ensures |b| == 8
  {
    LeBytes(x, 8)
  }

  /** The seed bytes decode back to the seed. */
  lemma Le8RoundTrip(x: u64)
    ensures FromLe(Le8(x)) == x
  {
    assert Pow256(8) == U64_MAX + 1;
    LeBytesRoundTrip(x, 8);
  }

  /** Distinct seeds give distinct seed bytes. */
  lemma Le8Injective(x: u64, y: u64)
    requires Le8(x) == Le8(y)
    ensures x == y
  {
    Le8RoundTrip(x);
    Le8RoundTrip(y);
  }

  /** `b"escrow"`, the namespace tag of every escrow record address. */
  const ESCROW_TAG: seq<u8> := [0x65, 0x73, 0x63, 0x72, 0x6f, 0x77]

  /** The address `["escrow", maker, seed.to_le_bytes()]` with `bump` derives. */
  function EscrowAddress(maker: Pubkey, seed: u64, bump: u8): (a: Pubkey)
    ensures !a.Wallet? && a != maker
  {
    Derive(ESCROW_TAG, maker, Le8(seed), bump)
  }

  /** One address per (maker, seed, bump): the derivation keeps all three apart. */
  lemma EscrowAddressInjective(m1: Pubkey, s1: u64, b1: u8, m2: Pubkey, s2: u64, b2: u8)
    requires EscrowAddress(m1, s1, b1) == EscrowAddress(m2, s2, b2)
    ensures m1 == m2 && s1 == s2 && b1 == b2
  {
    Le8Injective(s1, s2);
  }
}
