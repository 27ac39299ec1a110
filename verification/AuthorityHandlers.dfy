/**
 * The handlers that create, rewrite, charge and close the authority account: what each one does to
 * the account's bytes and to the lamports of everyone involved.
 */
module AuthorityHandlers {
  import opened Bytes
  import opened Wrappers
  import opened Errors
  import opened PolicyTypes
  import opened PolicyCodec
  import opened PolicyRules
  import opened SpendingLimit
  import opened AuthorityLayout

  type Lamports = map<Pubkey, nat>

  /** The account as the runtime holds it, and every lamport balance. */
  datatype World = World(live: bool, data: seq<byte>, lamports: Lamports)

  datatype Env = Env(layout: Layout, address: Pubkey, rent: nat -> nat, wsolMints: set<Pubkey>)

  datatype CapArg = CapArg(cap: u64, windowSeconds: i64)
  datatype MintCapArg = MintCapArg(mint: Pubkey, cap: u64, windowSeconds: i64)
  /** A vector that arrived on the wire, where its length is a `u32`. */
  type MintCapArgs = ms: seq<MintCapArg> | |ms| < 0x1_0000_0000
  datatype PolicyArgs = PolicyArgs(sol: Option<CapArg>, mints: MintCapArgs, permissions: seq<ProgramPermission>)

  /**
   * `allowed` stands for the guards outside this model: top-level call, no durable nonce, the locked
   * token account, the program-derived address, and for set_authority the passkey signature.
   */
  datatype SetAuthorityCall = SetAuthorityCall(
    allowed: bool, authority: Pubkey, phygitalToken: Pubkey, payer: Pubkey, bump: u8, walletBump: u8)
  datatype SetPolicyCall = SetPolicyCall(
    allowed: bool, signer: Pubkey, payer: Pubkey, receiver: Pubkey, args: PolicyArgs, now: i64, resizable: bool)
  datatype ClearCall = ClearCall(allowed: bool, signer: Pubkey, receiver: Pubkey)
  datatype ChargeCall = ChargeCall(allowed: bool, mint: Option<nat>, amount: u64, now: i64)

  function Balance(m: Lamports, k: Pubkey): nat {
    if k in m then m[k] else 0
  }

  /** A system transfer between two accounts; None when it cannot be made. */
  function Transfer(m: Lamports, from: Pubkey, to: Pubkey, amount: nat): Option<Lamports>
    requires from != to
  {
    if amount == 0 then Some(m)
    else if Balance(m, from) < amount || Balance(m, to) + amount >= TWO_64 then None
    else Some(m[from := Balance(m, from) - amount][to := Balance(m, to) + amount])
  }

  /** The balances once `payer` has topped the account up to `minimum`. */
  function TopUp(env: Env, m: Lamports, payer: Pubkey, minimum: nat): Option<Lamports>
    requires payer != env.address
  {
    var held := Balance(m, env.address);
    Transfer(m, payer, env.address, if minimum > held then minimum - held else 0)
  }

  function Resized(data: seq<byte>, n: nat): (r: seq<byte>)
    ensures |r| == n
  {
    if n <= |data| then data[..n] else data + seq(n - |data|, _ => 0)
  }

  function WithMarker(data: seq<byte>, version: u8): seq<byte>
    requires |data| >= SOL_CAP_OFFSET
  {
    data[POLICY_VERSION_OFFSET := version]
  }

  // ---------------------------------------------------------------- set_authority

  function NewHeader(c: SetAuthorityCall): AuthorityHeader {
    AuthorityHeader(c.authority, c.phygitalToken, c.payer, c.bump, c.walletBump,
                    AUTHORITY_VERSION, WALLET_POLICY_VERSION, NO_PADDING)
  }

  function SetAuthority(env: Env, w: World, c: SetAuthorityCall): Result<World, PhygitalError> {
    if !c.allowed || w.live || c.payer == env.address then Err(Runtime)
    else if c.authority == DefaultPubkey() then Err(InvalidAuthority)
    else
      match TopUp(env, w.lamports, c.payer, env.rent(BASE_LEN))
      case None => Err(Runtime)
      case Some(m) =>
        var data := env.layout.discriminator + EncodeHeader(NewHeader(c)) + Body(NO_CAP, [], EncodePermissions([]));
        Ok(World(true, data, m))
  }

  // ---------------------------------------------------------------- set_wallet_policy

  predicate MintsAcceptable(env: Env, mints: seq<MintCapArg>) {
    && (forall i :: 0 <= i < |mints| ==> mints[i].mint != DefaultPubkey() && mints[i].mint !in env.wsolMints)
    && (forall i, j :: 0 <= i < j < |mints| ==> mints[i].mint != mints[j].mint)
  }

  predicate ArgsAcceptable(env: Env, args: PolicyArgs) {
    && MintsAcceptable(env, args.mints)
    && ValidPermissions(env.layout.sizes, env.layout.programs, args.permissions)
    && |EncodePermissions(args.permissions)| <= MAX_PERMISSION_BYTES
  }

  function FindMint(mints: seq<MintCap>, mint: Pubkey): Option<SpendCap> {
    if mints == [] then None
    else if mints[0].mint == mint then Some(mints[0].cap)
    else FindMint(mints[1..], mint)
  }

  function NewMints(args: seq<MintCapArg>, old_: seq<MintCap>, now: i64): (r: Result<seq<MintCap>, PhygitalError>)
    ensures r.Ok? ==> |r.value| == |args|
  {
    if args == [] then Ok([])
    else
      match NewSpendCap(args[0].cap, args[0].windowSeconds, now)
      case Err(_) => Err(InvalidPolicyArgs)
      case Ok(cap) =>
        match NewMints(args[1..], old_, now)
        case Err(e) => Err(e)
        case Ok(rest) => Ok([MintCap(args[0].mint, PreserveSpendCap(cap, FindMint(old_, args[0].mint)))] + rest)
  }

  function NewSol(arg: Option<CapArg>, previous: Option<Policy>, now: i64): Result<SpendCap, PhygitalError> {
    match arg
    case None => Ok(NO_CAP)
    case Some(a) =>
      match NewSpendCap(a.cap, a.windowSeconds, now)
      case Err(_) => Err(InvalidPolicyArgs)
      case Ok(cap) =>
        var active := if previous.Some? && previous.value.sol.cap != 0 then Some(previous.value.sol) else None;
        Ok(PreserveSpendCap(cap, active))
  }

  /** The policy the owner asked for, keeping the counters of every cap that did not change. */
  function NewPolicy(args: PolicyArgs, previous: Option<Policy>, now: i64): Result<Policy, PhygitalError> {
    match NewSol(args.sol, previous, now)
    case Err(e) => Err(e)
    case Ok(sol) =>
      match NewMints(args.mints, if previous.Some? then previous.value.mints else [], now)
      case Err(e) => Err(e)
      case Ok(mints) => Ok(Policy(sol, mints, args.permissions))
  }

  function Previous(l: Layout, data: seq<byte>): Result<Option<Policy>, PhygitalError> {
    match Read(l, data)
    case Err(e) => Err(e)
    case Ok((_, present)) =>
      if !present then Ok(None)
      else
        match ReadPolicy(l, data)
        case Err(e) => Err(e)
        case Ok(p) => Ok(Some(p))
  }

  /** The balances once everything the account holds above `minimum` has gone to `receiver`. */
  function Refund(env: Env, m: Lamports, receiver: Pubkey, minimum: nat): Result<Lamports, PhygitalError>
    requires receiver != env.address
  {
    var held := Balance(m, env.address);
    if held < minimum then Err(InvalidAccountData)
    else if Balance(m, receiver) + (held - minimum) >= TWO_64 then Err(InvalidAccountData)
    else Ok(m[env.address := minimum][receiver := Balance(m, receiver) + (held - minimum)])
  }

  function SetPolicy(env: Env, w: World, c: SetPolicyCall): Result<World, PhygitalError> {
    if !c.allowed || !w.live || c.payer == env.address then Err(Runtime)
    else
      match ReadHeader(env.layout, w.data)
      case Err(e) => Err(e)
      case Ok(header) =>
        if c.receiver != header.payer then Err(AuthorityPayerMismatch)
        else if c.receiver == env.address then Err(InvalidAccountData)
        else if !ArgsAcceptable(env, c.args) then Err(InvalidPolicyArgs)
        else if header.authority != c.signer then Err(AuthorityMismatch)
        else
          match Previous(env.layout, w.data)
          case Err(e) => Err(e)
          case Ok(previous) =>
            match NewPolicy(c.args, previous, c.now)
            case Err(e) => Err(e)
            case Ok(policy) => Save(env, w, c, policy)
  }

  function Save(env: Env, w: World, c: SetPolicyCall, policy: Policy): Result<World, PhygitalError>
    requires c.payer != env.address && c.receiver != env.address && |w.data| >= SOL_CAP_OFFSET
  {
    var tail := EncodePermissions(policy.permissions);
    var newLen := MINTS_OFFSET + MINT_CAP_LEN * |policy.mints| + |tail|;
    var minimum := env.rent(newLen);
    match TopUp(env, w.lamports, c.payer, minimum)
    case None => Err(Runtime)
    case Some(paid) =>
      if newLen != |w.data| && !c.resizable then Err(Runtime)
      else
        match if newLen < |w.data| then Refund(env, paid, c.receiver, minimum) else Ok(paid)
        case Err(e) => Err(e)
        case Ok(m) =>
          var front := WithMarker(w.data[..SOL_CAP_OFFSET], WALLET_POLICY_VERSION);
          Ok(World(true, front + Body(policy.sol, policy.mints, tail), m))
  }

  // ---------------------------------------------------------------- clear_wallet_policy, clear_authority

  function ClearPolicy(env: Env, w: World, c: ClearCall): Result<World, PhygitalError> {
    if !c.allowed || !w.live then Err(Runtime)
    else
      match ReadHeader(env.layout, w.data)
      case Err(e) => Err(e)
      case Ok(header) =>
        if c.receiver != header.payer then Err(AuthorityPayerMismatch)
        else if c.receiver == env.address then Err(InvalidAccountData)
        else if header.authority != c.signer then Err(AuthorityMismatch)
        else if header.policyVersion == 0 && |w.data| == BASE_LEN && AllZero(w.data[SOL_CAP_OFFSET..]) then
          Err(InvalidAccountData)
        else
          match Refund(env, w.lamports, c.receiver, env.rent(BASE_LEN))
          case Err(e) => Err(e)
          case Ok(m) =>
            Ok(World(true, WithMarker(w.data[..SOL_CAP_OFFSET], 0) + Body(NO_CAP, [], [0, 0, 0, 0]), m))
  }

  function ClearAuthority(env: Env, w: World, c: ClearCall): Result<World, PhygitalError> {
    if !c.allowed || !w.live then Err(Runtime)
    else
      match ReadHeader(env.layout, w.data)
      case Err(e) => Err(e)
      case Ok(header) =>
        if c.receiver != header.payer then Err(AuthorityPayerMismatch)
        else if c.receiver == env.address then Err(InvalidAccountData)
        else if header.authority != c.signer then Err(AuthorityMismatch)
        else
          match Refund(env, w.lamports, c.receiver, 0)
          case Err(e) => Err(e)
          case Ok(m) => Ok(World(false, [], m))
  }

  // ---------------------------------------------------------------- charging a counter

  function Splice(data: seq<byte>, at: nat, bytes: seq<byte>): (r: seq<byte>)
    requires at + |bytes| <= |data|
    ensures |r| == |data|
  {
    data[..at] + bytes + data[at + |bytes|..]
  }

  /** Where a counter sits: the SOL cap, or the cap inside one mint entry. */
  function SlotOffset(mint: Option<nat>): nat {
    match mint
    case None => SOL_CAP_OFFSET
    case Some(i) => MINTS_OFFSET + MINT_CAP_LEN * i + 32
  }

  function ChargeSlot(env: Env, w: World, c: ChargeCall): Result<World, PhygitalError> {
    if !c.allowed || !w.live then Err(Runtime)
    else
      match Read(env.layout, w.data)
      case Err(e) => Err(e)
      case Ok((_, present)) =>
        if !present then Err(Runtime)
        else
          match ParseLayout(w.data)
          case Err(e) => Err(e)
          case Ok(end) =>
            if c.mint.Some? && MINTS_OFFSET + MINT_CAP_LEN * (c.mint.value + 1) > end then Err(InvalidAccountData)
            else
              var at := SlotOffset(c.mint);
              var (outcome, cap) := ChargeCap(DecodeCap(w.data[at..at + SPEND_CAP_LEN]), c.amount, c.now);
              match outcome
              case Err(e) => Err(e)
              case Ok(_) => Ok(w.(data := Splice(w.data, at, EncodeCap(cap))))
  }
}
