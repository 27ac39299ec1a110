/** Bytes and the little-endian integers that the Solana accounts and Borsh use. */
module Bytes {

  type byte = x: int | 0 <= x < 256
  type u8 = byte
  type u16 = x: int | 0 <= x < 0x1_0000
  type u32 = x: int | 0 <= x < 0x1_0000_0000
  type u64 = x: int | 0 <= x < 0x1_0000_0000_0000_0000
  type i64 = x: int | -0x8000_0000_0000_0000 <= x < 0x8000_0000_0000_0000

  const TWO_64: int := 0x1_0000_0000_0000_0000
  const TWO_63: int := 0x8000_0000_0000_0000

  /** A Solana public key is 32 raw bytes. */
  type Pubkey = k: seq<byte> | |k| == 32 witness seq(32, _ => 0)

  /** `Pubkey::default()`: all zero bytes. */
  function DefaultPubkey(): Pubkey {
    seq(32, _ => 0)
  }

  function Pow256(n: nat): (p: nat)
    ensures p > 0
  {
    if n == 0 then 1 else 256 * Pow256(n - 1)
  }

  lemma {:induction false} Pow256Values()
    ensures Pow256(1) == 0x100
    ensures Pow256(2) == 0x1_0000
    ensures Pow256(4) == 0x1_0000_0000
    ensures Pow256(8) == TWO_64
  {
    assert Pow256(2) == 256 * Pow256(1);
    assert Pow256(3) == 256 * Pow256(2);
    assert Pow256(4) == 256 * Pow256(3);
    assert Pow256(5) == 256 * Pow256(4);
    assert Pow256(6) == 256 * Pow256(5);
    assert Pow256(7) == 256 * Pow256(6);
    assert Pow256(8) == 256 * Pow256(7);
  }

  /** The n lowest bytes of v, least significant first (`to_le_bytes`). */
  function Le(v: nat, n: nat): (b: seq<byte>)
    ensures |b| == n
  {
    if n == 0 then [] else [v % 256] + Le(v / 256, n - 1)
  }

  /** The integer a little-endian byte string denotes (`from_le_bytes`). */
  function LeValue(b: seq<byte>): nat {
    if b == [] then 0 else b[0] + 256 * LeValue(b[1..])
  }

  lemma {:induction false} LeRoundTrip(v: nat, n: nat)
    requires v < Pow256(n)
    ensures LeValue(Le(v, n)) == v
  {
    if n > 0 {
      assert v / 256 < Pow256(n - 1);
      LeRoundTrip(v / 256, n - 1);
      assert Le(v, n)[1..] == Le(v / 256, n - 1);
    }
  }

  lemma {:induction false} LeValueRoundTrip(b: seq<byte>)
    ensures LeValue(b) < Pow256(|b|)
    ensures Le(LeValue(b), |b|) == b
  {
    if b != [] {
      LeValueRoundTrip(b[1..]);
      assert b == [b[0]] + b[1..];
    }
  }

  lemma {:induction false} Regroup(a: seq<byte>, b: seq<byte>, c: seq<byte>)
    ensures (a + b) + c == a + (b + c)
  {
  }

  /** Byte strings laid end to end. */
  function Flatten(parts: seq<seq<byte>>): seq<byte> {
    if parts == [] then [] else Flatten(parts[..|parts| - 1]) + parts[|parts| - 1]
  }

  /** Equal concatenations whose first parts are equally long are equal part by part. */
  lemma {:induction false} SplitEqual(a: seq<byte>, x: seq<byte>, b: seq<byte>, y: seq<byte>)
    requires |a| == |b| && a + x == b + y
    ensures a == b && x == y
  {
    assert (a + x)[..|a|] == a && (b + y)[..|b|] == b;
    assert (a + x)[|a|..] == x && (b + y)[|b|..] == y;
  }

  /** Two's complement, as the account layout stores `i64`. */
  function EncodeI64(v: i64): (b: seq<byte>)
    ensures |b| == 8
  {
    Le(if v < 0 then v + TWO_64 else v, 8)
  }

  function DecodeI64(b: seq<byte>): i64
    requires |b| == 8
  {
    LeValueRoundTrip(b);
    Pow256Values();
    var v := LeValue(b);
    if v < TWO_63 then v else v - TWO_64
  }

  lemma {:induction false} I64RoundTrip(v: i64)
    ensures DecodeI64(EncodeI64(v)) == v
  {
    Pow256Values();
    LeRoundTrip(if v < 0 then v + TWO_64 else v, 8);
  }

  lemma {:induction false} U64RoundTrip(v: u64)
    ensures LeValue(Le(v, 8)) == v
  {
    Pow256Values();
    LeRoundTrip(v, 8);
  }
}

/** Result types shared by the modelled components. */
module Wrappers {
  datatype Option<+T> = None | Some(value: T)
  datatype Result<+T, +E> = Ok(value: T) | Err(error: E)
}
