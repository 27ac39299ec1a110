/** The authority account as bytes: fixed offsets, a mint array and a permission tail. */
module AuthorityLayout {
  import opened Bytes
  import opened Wrappers
  import opened Errors
  import opened PolicyTypes
  import opened PolicyCodec
  import opened PolicyRules
  import opened PolicyDecoder
  import opened SpendingLimit

  const DISCRIMINATOR_LEN := 8
  const HEADER_LEN := 104
  const SPEND_CAP_LEN := 32
  const MINT_CAP_LEN := 64
  const SOL_CAP_OFFSET := 112
  const SOL_CAP_END := 144
  const MINT_LEN_OFFSET := 148
  const MINTS_OFFSET := 152
  const BASE_LEN := 156
  /** Where `policy_version` sits: discriminator, three keys, two bumps, the layout version. */
  const POLICY_VERSION_OFFSET := 107
  const AUTHORITY_VERSION: u8 := 1
  const WALLET_POLICY_VERSION: u8 := 8

  type Discriminator = d: seq<byte> | |d| == 8 witness seq(8, _ => 0)
  type Padding = p: seq<byte> | |p| == 4 witness seq(4, _ => 0)

  const NO_PADDING: Padding := [0, 0, 0, 0]

  /** What the deployed program fixes: its type sizes, identities and account discriminator. */
  datatype Layout = Layout(discriminator: Discriminator, sizes: Sizes, programs: Programs)

  datatype AuthorityHeader = AuthorityHeader(
    authority: Pubkey, phygitalToken: Pubkey, payer: Pubkey,
    bump: u8, walletBump: u8, version: u8, policyVersion: u8, padding: Padding)

  datatype MintCap = MintCap(mint: Pubkey, cap: SpendCap)

  datatype Policy = Policy(sol: SpendCap, mints: seq<MintCap>, permissions: seq<ProgramPermission>)

  // ---------------------------------------------------------------- plain-old-data fields

  function EncodeHeader(h: AuthorityHeader): (b: seq<byte>)
    ensures |b| == HEADER_LEN
  {
    h.authority + h.phygitalToken + h.payer + [h.bump, h.walletBump, h.version, h.policyVersion] + h.padding
  }

  function DecodeHeader(b: seq<byte>): AuthorityHeader
    requires |b| == HEADER_LEN
  {
    AuthorityHeader(b[..32], b[32..64], b[64..96], b[96], b[97], b[98], b[99], b[100..])
  }

  lemma {:induction false} HeaderRoundTrip(h: AuthorityHeader)
    ensures DecodeHeader(EncodeHeader(h)) == h
  {
    var b := EncodeHeader(h);
    assert b[..32] == h.authority && b[32..64] == h.phygitalToken && b[64..96] == h.payer && b[100..] == h.padding;
  }

  function EncodeCap(c: SpendCap): (b: seq<byte>)
    ensures |b| == SPEND_CAP_LEN
  {
    Le(c.cap, 8) + Le(c.remaining, 8) + EncodeI64(c.lastReset) + EncodeI64(c.windowSeconds)
  }

  function DecodeU64(b: seq<byte>): u64
    requires |b| == 8
  {
    LeValueRoundTrip(b);
    Pow256Values();
    LeValue(b)
  }

  function DecodeCap(b: seq<byte>): SpendCap
    requires |b| == SPEND_CAP_LEN
  {
    SpendCap(DecodeU64(b[..8]), DecodeU64(b[8..16]), DecodeI64(b[16..24]), DecodeI64(b[24..]))
  }

  lemma {:induction false} CapRoundTrip(c: SpendCap)
    ensures DecodeCap(EncodeCap(c)) == c
  {
    var b := EncodeCap(c);
    assert b[..8] == Le(c.cap, 8) && b[8..16] == Le(c.remaining, 8);
    assert b[16..24] == EncodeI64(c.lastReset) && b[24..] == EncodeI64(c.windowSeconds);
    U64RoundTrip(c.cap);
    U64RoundTrip(c.remaining);
    I64RoundTrip(c.lastReset);
    I64RoundTrip(c.windowSeconds);
  }

  function EncodeMint(m: MintCap): (b: seq<byte>)
    ensures |b| == MINT_CAP_LEN
  {
    m.mint + EncodeCap(m.cap)
  }

  function EncodeMints(ms: seq<MintCap>): (b: seq<byte>)
    ensures |b| == MINT_CAP_LEN * |ms|
  {
    if ms == [] then [] else EncodeMint(ms[0]) + EncodeMints(ms[1..])
  }

  function DecodeMints(b: seq<byte>): (ms: seq<MintCap>)
    requires |b| % MINT_CAP_LEN == 0
    ensures |ms| * MINT_CAP_LEN == |b|
  {
    if b == [] then []
    else [MintCap(b[..32], DecodeCap(b[32..64]))] + DecodeMints(b[64..])
  }

  lemma {:induction false} MintsRoundTrip(ms: seq<MintCap>)
    ensures DecodeMints(EncodeMints(ms)) == ms
  {
    if ms != [] {
      var b := EncodeMints(ms);
      assert b[..32] == ms[0].mint && b[32..64] == EncodeCap(ms[0].cap) && b[64..] == EncodeMints(ms[1..]);
      CapRoundTrip(ms[0].cap);
      MintsRoundTrip(ms[1..]);
    }
  }

  // ---------------------------------------------------------------- reading

  function ReadHeader(l: Layout, data: seq<byte>): Result<AuthorityHeader, PhygitalError> {
    if |data| < SOL_CAP_OFFSET then Err(InvalidAccountData)
    else if data[..DISCRIMINATOR_LEN] != l.discriminator then Err(InvalidAccountData)
    else
      var header := DecodeHeader(data[DISCRIMINATOR_LEN..SOL_CAP_OFFSET]);
      if header.version != AUTHORITY_VERSION then Err(UnsupportedAuthorityVersion) else Ok(header)
  }

  lemma {:induction false} HeaderFits(l: Layout, data: seq<byte>)
    ensures ReadHeader(l, data).Ok? ==> |data| >= SOL_CAP_OFFSET
  {
  }

  predicate AllZero(b: seq<byte>) {
    forall i :: 0 <= i < |b| ==> b[i] == 0
  }

  /** Where the permission tail starts, once the fixed part and the mint array are seen to fit. */
  function ParseLayout(data: seq<byte>): (r: Result<nat, PhygitalError>)
    ensures r.Ok? ==> MINTS_OFFSET <= r.value <= |data| - 4 && (r.value - MINTS_OFFSET) % MINT_CAP_LEN == 0
  {
    if |data| < BASE_LEN then Err(InvalidAccountData)
    else if data[SOL_CAP_END..MINT_LEN_OFFSET] != NO_PADDING then Err(InvalidAccountData)
    else
      var count := LeValue(data[MINT_LEN_OFFSET..MINTS_OFFSET]);
      var end := MINTS_OFFSET + count * MINT_CAP_LEN;
      if end > |data| || |data| - end < 4 then Err(InvalidAccountData) else Ok(end)
  }

  /** The header, and whether a policy is active. */
  function Read(l: Layout, data: seq<byte>): Result<(AuthorityHeader, bool), PhygitalError> {
    match ReadHeader(l, data)
    case Err(e) => Err(e)
    case Ok(header) =>
      if header.policyVersion == 0 then
        if |data| == BASE_LEN && AllZero(data[SOL_CAP_OFFSET..]) then Ok((header, false))
        else Err(InvalidAccountData)
      else if header.policyVersion == WALLET_POLICY_VERSION then
        match ParseLayout(data)
        case Err(e) => Err(e)
        case Ok(_) => Ok((header, true))
      else Err(UnsupportedPolicyVersion)
  }

  function ReadPolicy(l: Layout, data: seq<byte>): Result<Policy, PhygitalError> {
    match ParseLayout(data)
    case Err(e) => Err(e)
    case Ok(end) =>
      match DecodePermissions(l.sizes, l.programs, data[end..])
      case None => Err(InvalidAccountData)
      case Some(permissions) =>
        Ok(Policy(DecodeCap(data[SOL_CAP_OFFSET..SOL_CAP_END]), DecodeMints(data[MINTS_OFFSET..end]), permissions))
  }

  // ---------------------------------------------------------------- the bytes a state stands for

  /** Everything after the header: SOL cap, padding, mint count, mint array, permission tail. */
  function Body(sol: SpendCap, mints: seq<MintCap>, tail: seq<byte>): (b: seq<byte>)
    ensures |b| == MINTS_OFFSET - SOL_CAP_OFFSET + MINT_CAP_LEN * |mints| + |tail|
  {
    EncodeCap(sol) + (NO_PADDING + (Le(|mints|, 4) + (EncodeMints(mints) + tail)))
  }

  /** A header whose marker agrees with whether a policy is there. */
  function Marked(h: AuthorityHeader, policy: Option<Policy>): AuthorityHeader {
    h.(version := AUTHORITY_VERSION, policyVersion := if policy.Some? then WALLET_POLICY_VERSION else 0)
  }

  function Image(l: Layout, h: AuthorityHeader, policy: Option<Policy>): seq<byte> {
    l.discriminator + EncodeHeader(Marked(h, policy)) +
    match policy
    case None => Body(NO_CAP, [], [0, 0, 0, 0])
    case Some(p) => Body(p.sol, p.mints, EncodePermissions(p.permissions))
  }

  /** A policy the program can have saved. */
  ghost predicate Savable(l: Layout, p: Policy) {
    && |p.mints| < 0x1_0000_0000
    && ValidPermissions(l.sizes, l.programs, p.permissions)
    && |EncodePermissions(p.permissions)| <= MAX_PERMISSION_BYTES
  }

  lemma {:induction false} BodySlices(front: seq<byte>, sol: SpendCap, mints: seq<MintCap>, tail: seq<byte>)
    requires |front| == SOL_CAP_OFFSET
    ensures var data := front + Body(sol, mints, tail);
            var end := MINTS_OFFSET + MINT_CAP_LEN * |mints|;
            && data[..SOL_CAP_OFFSET] == front
            && data[SOL_CAP_OFFSET..SOL_CAP_END] == EncodeCap(sol)
            && data[SOL_CAP_END..MINT_LEN_OFFSET] == NO_PADDING
            && data[MINT_LEN_OFFSET..MINTS_OFFSET] == Le(|mints|, 4)
            && data[MINTS_OFFSET..end] == EncodeMints(mints)
            && data[end..] == tail
  {
  }

  lemma {:induction false} BodyParses(front: seq<byte>, sol: SpendCap, mints: seq<MintCap>, tail: seq<byte>)
    requires |front| == SOL_CAP_OFFSET && |mints| < 0x1_0000_0000 && |tail| >= 4
    ensures ParseLayout(front + Body(sol, mints, tail)) == Ok(MINTS_OFFSET + MINT_CAP_LEN * |mints|)
  {
    hide Body;
    BodySlices(front, sol, mints, tail);
    Pow256Values();
    LeRoundTrip(|mints|, 4);
  }

  lemma {:induction false} PermissionTailLength(ps: seq<ProgramPermission>)
    ensures |EncodePermissions(ps)| >= 4
  {
  }

  /** Reading an image gives back the header, the marker and the policy it was built from. */
  lemma {:induction false} ImageReads(l: Layout, h: AuthorityHeader, policy: Option<Policy>)
    requires policy.Some? ==> Savable(l, policy.value)
    ensures Read(l, Image(l, h, policy)) == Ok((Marked(h, policy), policy.Some?))
    ensures policy.Some? ==> ReadPolicy(l, Image(l, h, policy)) == Ok(policy.value)
  {
    hide Body, EncodePermissions, EncodeHeader, EncodeCap, EncodeMints, DecodeHeader, ValidPermissions, DecodePermissions;
    var front := l.discriminator + EncodeHeader(Marked(h, policy));
    assert front[..DISCRIMINATOR_LEN] == l.discriminator;
    assert front[DISCRIMINATOR_LEN..] == EncodeHeader(Marked(h, policy));
    HeaderRoundTrip(Marked(h, policy));
    match policy
    case None =>
      BodySlices(front, NO_CAP, [], [0, 0, 0, 0]);
      EmptyBodyIsZero();
      var data := Image(l, h, policy);
      assert data == front + Body(NO_CAP, [], [0, 0, 0, 0]);
      assert data[SOL_CAP_OFFSET..] == Body(NO_CAP, [], [0, 0, 0, 0]);
      assert data[DISCRIMINATOR_LEN..SOL_CAP_OFFSET] == front[DISCRIMINATOR_LEN..];
    case Some(p) =>
      var tail := EncodePermissions(p.permissions);
      PermissionTailLength(p.permissions);
      var data := Image(l, h, policy);
      assert data == front + Body(p.sol, p.mints, tail);
      BodySlices(front, p.sol, p.mints, tail);
      BodyParses(front, p.sol, p.mints, tail);
      assert data[DISCRIMINATOR_LEN..SOL_CAP_OFFSET] == front[DISCRIMINATOR_LEN..];
      DecodesExactly(l.sizes, l.programs, tail, p.permissions);
      CapRoundTrip(p.sol);
      MintsRoundTrip(p.mints);
  }

  lemma {:induction false} LeOfZero(n: nat)
    ensures AllZero(Le(0, n))
  {
    if n > 0 {
      LeOfZero(n - 1);
    }
  }

  lemma {:induction false} EmptyBodyIsZero()
    ensures AllZero(Body(NO_CAP, [], [0, 0, 0, 0]))
  {
    LeOfZero(8);
    LeOfZero(4);
    assert AllZero(EncodeCap(NO_CAP));
    assert EncodeMints([]) == [];
  }
}
