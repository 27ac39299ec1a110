/** What the readers accept: nothing but the bytes that a header and a policy are written as. */
module AuthorityReader {
  import opened Bytes
  import opened Wrappers
  import opened PolicyCodec
  import opened PolicyDecoder
  import opened SpendingLimit
  import opened AuthorityLayout

  lemma {:induction false} HeaderBytes(b: seq<byte>)
    requires |b| == HEADER_LEN
    ensures EncodeHeader(DecodeHeader(b)) == b
  {
    assert b == b[..32] + b[32..64] + b[64..96] + [b[96], b[97], b[98], b[99]] + b[100..];
  }

  lemma {:induction false} I64Bytes(b: seq<byte>)
    requires |b| == 8
    ensures EncodeI64(DecodeI64(b)) == b
  {
    LeValueRoundTrip(b);
    Pow256Values();
  }

  lemma {:induction false} CapBytes(b: seq<byte>)
    requires |b| == SPEND_CAP_LEN
    ensures EncodeCap(DecodeCap(b)) == b
  {
    hide LeValue, Le, DecodeI64, EncodeI64;
    LeValueRoundTrip(b[..8]);
    LeValueRoundTrip(b[8..16]);
    I64Bytes(b[16..24]);
    I64Bytes(b[24..]);
    assert b == b[..8] + b[8..16] + b[16..24] + b[24..];
  }

  lemma {:induction false} MintsBytes(b: seq<byte>)
    requires |b| % MINT_CAP_LEN == 0
    ensures EncodeMints(DecodeMints(b)) == b
  {
    hide EncodeCap, DecodeCap;
    if b != [] {
      CapBytes(b[32..64]);
      MintsBytes(b[64..]);
      assert DecodeMints(b)[1..] == DecodeMints(b[64..]);
      assert b == b[..32] + b[32..64] + b[64..];
    }
  }

  lemma {:induction false} FrontBytes(l: Layout, data: seq<byte>)
    requires ReadHeader(l, data).Ok?
    ensures |data| >= SOL_CAP_OFFSET
    ensures data[..SOL_CAP_OFFSET] == l.discriminator + EncodeHeader(ReadHeader(l, data).value)
    ensures ReadHeader(l, data).value.version == AUTHORITY_VERSION
  {
    hide EncodeHeader, DecodeHeader;
    HeaderBytes(data[DISCRIMINATOR_LEN..SOL_CAP_OFFSET]);
    assert data[..SOL_CAP_OFFSET] == data[..DISCRIMINATOR_LEN] + data[DISCRIMINATOR_LEN..SOL_CAP_OFFSET];
  }

  lemma {:induction false} BodyBytes(l: Layout, data: seq<byte>)
    requires ReadPolicy(l, data).Ok?
    ensures var p := ReadPolicy(l, data).value;
            && Savable(l, p) && |data| >= SOL_CAP_OFFSET
            && data[SOL_CAP_OFFSET..] == Body(p.sol, p.mints, EncodePermissions(p.permissions))
  {
    hide EncodeCap, DecodeCap, EncodeMints, DecodeMints, EncodePermissions, LeValue, Le, DecodePermissions;
    var end := ParseLayout(data).value;
    var p := ReadPolicy(l, data).value;
    DecodesExactly(l.sizes, l.programs, data[end..], p.permissions);
    CapBytes(data[SOL_CAP_OFFSET..SOL_CAP_END]);
    MintsBytes(data[MINTS_OFFSET..end]);
    var count := data[MINT_LEN_OFFSET..MINTS_OFFSET];
    LeValueRoundTrip(count);
    Pow256Values();
    assert LeValue(count) == |p.mints|;
    assert data[SOL_CAP_OFFSET..]
        == data[SOL_CAP_OFFSET..SOL_CAP_END]
           + (data[SOL_CAP_END..MINT_LEN_OFFSET] + (count + (data[MINTS_OFFSET..end] + data[end..])));
  }

  lemma {:induction false} ZeroIsEmptyBody(b: seq<byte>)
    requires |b| == BASE_LEN - SOL_CAP_OFFSET && AllZero(b)
    ensures b == Body(NO_CAP, [], [0, 0, 0, 0])
  {
    EmptyBodyIsZero();
  }

  /** The readers accept a header and a policy exactly when the bytes are the ones they are written as. */
  lemma {:induction false} ReadsExactlyImages(l: Layout, data: seq<byte>, h: AuthorityHeader, policy: Option<Policy>)
    ensures && Read(l, data) == Ok((h, policy.Some?))
            && (policy.Some? ==> ReadPolicy(l, data) == Ok(policy.value))
       <==> && h == Marked(h, policy)
            && (policy.Some? ==> Savable(l, policy.value))
            && data == Image(l, h, policy)
  {
    hide ReadPolicy, EncodeHeader, Body, EncodePermissions, Savable, ParseLayout;
    if h == Marked(h, policy) && (policy.Some? ==> Savable(l, policy.value)) && data == Image(l, h, policy) {
      ImageReads(l, h, policy);
    }
    if Read(l, data) == Ok((h, policy.Some?)) && (policy.Some? ==> ReadPolicy(l, data) == Ok(policy.value)) {
      FrontBytes(l, data);
      assert data == data[..SOL_CAP_OFFSET] + data[SOL_CAP_OFFSET..];
      if policy.Some? {
        BodyBytes(l, data);
      } else {
        ZeroIsEmptyBody(data[SOL_CAP_OFFSET..]);
      }
    }
  }
}
