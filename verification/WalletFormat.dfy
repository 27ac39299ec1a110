/** The portable wallet blob and the associated data that binds its header. */
module WalletFormat {
  import opened Bytes
  import opened Wrappers

  const BLOB_MAGIC: seq<byte> := [0x53, 0x53, 0x57, 0x31]
  const BLOB_VERSION: byte := 1
  const PUBKEY_BYTES := 32
  const SALT_BYTES := 32
  const IV_BYTES := 12
  const CIPHERTEXT_BYTES := 48
  const MAX_BLOB_BYTES := 1024
  const MAX_CREDENTIAL_ID_BYTES := 256

  datatype Fields = Fields(
    publicKey: seq<byte>, credentialId: seq<byte>, kdfSalt: seq<byte>, iv: seq<byte>, ciphertext: seq<byte>)

  /** The integer a big-endian byte pair denotes. */
  function U16Value(hi: byte, lo: byte): nat {
    hi as int * 256 + lo as int
  }

  /** Big-endian `u16`; None is the thrown overflow. */
  function WriteU16(n: nat): (r: Option<seq<byte>>)
    ensures r.Some? <==> n <= 0xffff
    ensures r.Some? ==> |r.value| == 2 && U16Value(r.value[0], r.value[1]) == n
  {
    if n > 0xffff then None else Some([n / 256 % 256, n % 256])
  }

  /** The lengths an encodable blob has. */
  predicate Wellformed(f: Fields) {
    && |f.publicKey| == PUBKEY_BYTES
    && |f.kdfSalt| == SALT_BYTES
    && |f.iv| == IV_BYTES
    && |f.ciphertext| == CIPHERTEXT_BYTES
    && 1 <= |f.credentialId| <= MAX_CREDENTIAL_ID_BYTES
  }

  function Parts(f: Fields): seq<seq<byte>>
    requires Wellformed(f)
  {
    [BLOB_MAGIC, [BLOB_VERSION], f.publicKey, WriteU16(|f.credentialId|).value, f.credentialId, f.kdfSalt, f.iv,
     WriteU16(|f.ciphertext|).value, f.ciphertext]
  }

  function Blob(f: Fields): (b: seq<byte>)
    requires Wellformed(f)
    ensures |b| == 133 + |f.credentialId|
  {
    BLOB_MAGIC + [BLOB_VERSION] + f.publicKey + WriteU16(|f.credentialId|).value + f.credentialId + f.kdfSalt + f.iv
    + WriteU16(|f.ciphertext|).value + f.ciphertext
  }

  /** Add up the lengths, then copy each part behind the previous one. */
  method Concat(parts: seq<seq<byte>>) returns (out: array<byte>)
    ensures fresh(out) && out[..] == Flatten(parts)
  {
    var len := 0;
    for i := 0 to |parts|
      invariant len == |Flatten(parts[..i])|
    {
      assert parts[..i + 1][..i] == parts[..i];
      len := len + |parts[i]|;
    }
    assert parts[..|parts|] == parts;
    out := new byte[len](_ => 0);
    var o := 0;
    for i := 0 to |parts|
      invariant o == |Flatten(parts[..i])| <= len
      invariant out[..o] == Flatten(parts[..i])
    {
      assert parts[..i + 1][..i] == parts[..i];
      PrefixFits(parts, i + 1);
      forall k | 0 <= k < |parts[i]| {
        out[o + k] := parts[i][k];
      }
      assert out[..o + |parts[i]|] == Flatten(parts[..i]) + parts[i];
      o := o + |parts[i]|;
    }
  }

  lemma {:induction false} PrefixFits(parts: seq<seq<byte>>, i: nat)
    requires i <= |parts|
    ensures |Flatten(parts[..i])| <= |Flatten(parts)|
    decreases |parts|
  {
    if i == |parts| {
      assert parts[..i] == parts;
    } else {
      assert parts[..|parts| - 1][..i] == parts[..i];
      PrefixFits(parts[..|parts| - 1], i);
    }
  }

  lemma {:induction false} FlattenNine(a: seq<byte>, b: seq<byte>, c: seq<byte>, d: seq<byte>, e: seq<byte>,
                                       f: seq<byte>, g: seq<byte>, h: seq<byte>, i: seq<byte>)
    ensures Flatten([a, b, c, d, e, f, g, h, i]) == a + b + c + d + e + f + g + h + i
  {
    FlattenPush([], a);
    assert [] + [a] == [a] && [a] + [b] == [a, b] && [a, b] + [c] == [a, b, c];
    FlattenPush([a], b);
    FlattenPush([a, b], c);
    FlattenPush([a, b, c], d);
    assert [a, b, c] + [d] == [a, b, c, d] && [a, b, c, d] + [e] == [a, b, c, d, e];
    FlattenPush([a, b, c, d], e);
    FlattenPush([a, b, c, d, e], f);
    assert [a, b, c, d, e] + [f] == [a, b, c, d, e, f] && [a, b, c, d, e, f] + [g] == [a, b, c, d, e, f, g];
    FlattenPush([a, b, c, d, e, f], g);
    FlattenPush([a, b, c, d, e, f, g], h);
    assert [a, b, c, d, e, f, g] + [h] == [a, b, c, d, e, f, g, h];
    assert [a, b, c, d, e, f, g, h] + [i] == [a, b, c, d, e, f, g, h, i];
    FlattenPush([a, b, c, d, e, f, g, h], i);
  }

  lemma {:induction false} FlattenPush(parts: seq<seq<byte>>, p: seq<byte>)
    ensures Flatten(parts + [p]) == Flatten(parts) + p
  {
    assert (parts + [p])[..|parts|] == parts;
  }

  /** None stands for the thrown BlobError. */
  method EncodeWalletBlob(f: Fields) returns (r: Option<seq<byte>>)
    ensures r == if Wellformed(f) then Some(Blob(f)) else None
  {
    if |f.publicKey| != PUBKEY_BYTES || |f.kdfSalt| != SALT_BYTES || |f.iv| != IV_BYTES
       || |f.ciphertext| != CIPHERTEXT_BYTES || |f.credentialId| < 1 || |f.credentialId| > MAX_CREDENTIAL_ID_BYTES {
      return None;
    }
    var out := Concat(Parts(f));
    FlattenNine(BLOB_MAGIC, [BLOB_VERSION], f.publicKey, WriteU16(|f.credentialId|).value, f.credentialId, f.kdfSalt,
                f.iv, WriteU16(|f.ciphertext|).value, f.ciphertext);
    r := Some(out[..]);
  }

  // ---------------------------------------------------------------- decoding

  /** The bounds-checked cursor: every read first checks that the bytes are there. */
  class Reader {
    const b: seq<byte>
    var o: nat

    constructor (b: seq<byte>)
      ensures this.b == b && o == 0
    {
      this.b := b;
      o := 0;
    }

    method Take(n: nat) returns (r: Option<seq<byte>>)
      requires o <= |b|
      modifies this`o
      ensures r.Some? <==> old(o) + n <= |b|
      ensures r.Some? ==> o == old(o) + n && r.value == b[old(o)..o]
      ensures r.None? ==> o == old(o)
    {
      if o + n > |b| {
        return None;
      }
      r := Some(b[o..o + n]);
      o := o + n;
    }

    method U8() returns (r: Option<byte>)
      requires o <= |b|
      modifies this`o
      ensures r.Some? <==> old(o) < |b|
      ensures r.Some? ==> o == old(o) + 1 && r.value == b[old(o)]
      ensures r.None? ==> o == old(o)
    {
      if o + 1 > |b| {
        return None;
      }
      r := Some(b[o]);
      o := o + 1;
    }

    method U16() returns (r: Option<nat>)
      requires o <= |b|
      modifies this`o
      ensures r.Some? <==> old(o) + 2 <= |b|
      ensures r.Some? ==> o == old(o) + 2 && r.value == U16Value(b[old(o)], b[old(o) + 1])
      ensures r.None? ==> o == old(o)
    {
      if o + 2 > |b| {
        return None;
      }
      r := Some(U16Value(b[o], b[o + 1]));
      o := o + 2;
    }
  }

  /** Strict decoding, field by field, read off the offsets. */
  function DecodeBlob(b: seq<byte>): (r: Option<Fields>)
    ensures r.Some? ==> Wellformed(r.value)
  {
    if |b| < 134 || |b| > MAX_BLOB_BYTES || b[..4] != BLOB_MAGIC || b[4] != BLOB_VERSION then None
    else
      var n := U16Value(b[37], b[38]);
      if n < 1 || n > MAX_CREDENTIAL_ID_BYTES || |b| != 133 + n || U16Value(b[83 + n], b[84 + n]) != CIPHERTEXT_BYTES then None
      else Some(Fields(b[5..37], b[39..39 + n], b[39 + n..71 + n], b[71 + n..83 + n], b[85 + n..133 + n]))
  }

  method DecodeWalletBlob(bytes: seq<byte>) returns (r: Option<Fields>)
    ensures r == DecodeBlob(bytes)
  {
    if |bytes| < 4 + 1 + 32 + 2 + 1 + 32 + 12 + 2 + CIPHERTEXT_BYTES || |bytes| > MAX_BLOB_BYTES {
      return None;
    }
    var reader := new Reader(bytes);
    var magic := reader.Take(4);
    if magic.None? || magic.value != BLOB_MAGIC { return None; }
    var version := reader.U8();
    if version.None? || version.value != BLOB_VERSION { return None; }
    var publicKey := reader.Take(PUBKEY_BYTES);
    if publicKey.None? { return None; }
    var credLen := reader.U16();
    if credLen.None? || credLen.value < 1 || credLen.value > MAX_CREDENTIAL_ID_BYTES { return None; }
    var credentialId := reader.Take(credLen.value);
    if credentialId.None? { return None; }
    var kdfSalt := reader.Take(SALT_BYTES);
    if kdfSalt.None? { return None; }
    var iv := reader.Take(IV_BYTES);
    if iv.None? { return None; }
    var ctLen := reader.U16();
    if ctLen.None? || ctLen.value != CIPHERTEXT_BYTES { return None; }
    var ciphertext := reader.Take(ctLen.value);
    if ciphertext.None? || reader.o != |bytes| { return None; }
    r := Some(Fields(publicKey.value, credentialId.value, kdfSalt.value, iv.value, ciphertext.value));
  }

  /** Encoding then decoding gives the fields back. */
  lemma {:induction false} BlobDecodes(f: Fields)
    requires Wellformed(f)
    ensures DecodeBlob(Blob(f)) == Some(f)
  {
    var b, n := Blob(f), |f.credentialId|;
    assert b[..4] == BLOB_MAGIC && b[4] == BLOB_VERSION && b[5..37] == f.publicKey;
    assert b[37..39] == WriteU16(n).value;
    assert b[37] == b[37..39][0] && b[38] == b[37..39][1];
    assert b[39..39 + n] == f.credentialId && b[39 + n..71 + n] == f.kdfSalt && b[71 + n..83 + n] == f.iv;
    assert b[83 + n..85 + n] == WriteU16(CIPHERTEXT_BYTES).value;
    assert b[83 + n] == b[83 + n..85 + n][0] && b[84 + n] == b[83 + n..85 + n][1];
    assert b[85 + n..133 + n] == f.ciphertext;
  }

  lemma {:induction false} U16IsUnique(hi: byte, lo: byte)
    ensures WriteU16(U16Value(hi, lo)) == Some([hi, lo])
  {
  }

  /** Decoding then encoding gives the bytes back, so exactly the encodings are accepted. */
  lemma {:induction false} DecodedReencodes(b: seq<byte>)
    ensures DecodeBlob(b).Some? ==> b == Blob(DecodeBlob(b).value)
  {
    if DecodeBlob(b).Some? {
      var n := U16Value(b[37], b[38]);
      U16IsUnique(b[37], b[38]);
      U16IsUnique(b[83 + n], b[84 + n]);
      assert b == b[..4] + [b[4]] + b[5..37] + [b[37], b[38]] + b[39..39 + n] + b[39 + n..71 + n] + b[71 + n..83 + n]
                  + [b[83 + n], b[84 + n]] + b[85 + n..133 + n];
    }
  }

  // ---------------------------------------------------------------- associated data

  /** The header parts `buildAad` binds, with the relying-party id and the HKDF label as UTF-8 bytes. */
  datatype Bound = Bound(publicKey: seq<byte>, credentialId: seq<byte>, kdfSalt: seq<byte>, rpId: seq<byte>)

  /** None is the thrown length overflow. */
  function BuildAad(h: Bound, info: seq<byte>): Option<seq<byte>> {
    if |h.credentialId| > 0xffff || |h.rpId| > 0xffff || |info| > 0xffff then None
    else
      Some(BLOB_MAGIC + ([BLOB_VERSION] + (h.publicKey + (WriteU16(|h.credentialId|).value + (h.credentialId + (h.kdfSalt
           + (WriteU16(|h.rpId|).value + (h.rpId + (WriteU16(|info|).value + info)))))))))
  }

  lemma {:induction false} LengthPrefixed(a: seq<byte>, x: seq<byte>, b: seq<byte>, y: seq<byte>)
    requires |a| <= 0xffff && |b| <= 0xffff
    requires WriteU16(|a|).value + (a + x) == WriteU16(|b|).value + (b + y)
    ensures a == b && x == y
  {
    SplitEqual(WriteU16(|a|).value, a + x, WriteU16(|b|).value, b + y);
    SplitEqual(a, x, b, y);
  }

  /** Two headers with the same associated data are the same header under the same relying party. */
  lemma {:induction false} AadInjective(g: Bound, h: Bound, info: seq<byte>)
    requires |g.publicKey| == |h.publicKey| && |g.kdfSalt| == |h.kdfSalt|
    requires BuildAad(g, info).Some? && BuildAad(g, info) == BuildAad(h, info)
    ensures g == h
  {
    hide WriteU16;
    var gi, hi := WriteU16(|info|).value + info, WriteU16(|info|).value + info;
    var g4, h4 := WriteU16(|g.rpId|).value + (g.rpId + gi), WriteU16(|h.rpId|).value + (h.rpId + hi);
    var g3, h3 := g.kdfSalt + g4, h.kdfSalt + h4;
    var g2 := WriteU16(|g.credentialId|).value + (g.credentialId + g3);
    var h2 := WriteU16(|h.credentialId|).value + (h.credentialId + h3);
    SplitEqual(BLOB_MAGIC, [BLOB_VERSION] + (g.publicKey + g2), BLOB_MAGIC, [BLOB_VERSION] + (h.publicKey + h2));
    SplitEqual([BLOB_VERSION], g.publicKey + g2, [BLOB_VERSION], h.publicKey + h2);
    SplitEqual(g.publicKey, g2, h.publicKey, h2);
    LengthPrefixed(g.credentialId, g3, h.credentialId, h3);
    SplitEqual(g.kdfSalt, g4, h.kdfSalt, h4);
    LengthPrefixed(g.rpId, gi, h.rpId, hi);
  }
}
