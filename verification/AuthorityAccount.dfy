/**
 * The handlers as they run: bytes rewritten in place and lamports assigned one balance at a time.
 * An instruction that returns an error is undone by the runtime, which restores what it had written.
 */
module AuthorityAccount {
  import opened Bytes
  import opened Wrappers
  import opened Errors
  import opened PolicyTypes
  import opened PolicyCodec
  import opened PolicyRules
  import opened SpendingLimit
  import opened AuthorityLayout
  import opened AuthorityHandlers

  /** The run did what `outcome` says, or failed with its error and left everything as it was. */
  ghost predicate Commits(outcome: Result<World, PhygitalError>, r: Result<(), PhygitalError>, before: World, after: World) {
    match outcome
    case Err(e) => r == Err(e) && after == before
    case Ok(w) => r == Ok(()) && after == w
  }

  lemma {:induction false} SpliceExtends(data: seq<byte>, at: nat, bytes: seq<byte>)
    requires at + |bytes| <= |data|
    ensures Splice(data, at, bytes)[..at + |bytes|] == data[..at] + bytes
  {
  }

  lemma {:induction false} BodyConcat(front: seq<byte>, sol: SpendCap, mints: seq<MintCap>, tail: seq<byte>)
    ensures front + Body(sol, mints, tail)
         == front + EncodeCap(sol) + NO_PADDING + Le(|mints|, 4) + EncodeMints(mints) + tail
  {
  }

  class Chain {
    const env: Env
    var live: bool
    var data: seq<byte>
    var lamports: Lamports

    constructor (env: Env, w: World)
      ensures this.env == env && State() == w
    {
      this.env := env;
      live, data, lamports := w.live, w.data, w.lamports;
    }

    function State(): World
      reads this
    {
      World(live, data, lamports)
    }

    /** The counters, the padding, the count, the mints and the tail, each written where it belongs. */
    method WritePolicy(sol: SpendCap, mints: seq<MintCap>, tail: seq<byte>)
      requires |data| == MINTS_OFFSET + MINT_CAP_LEN * |mints| + |tail|
      modifies this`data
      ensures data == old(data[..SOL_CAP_OFFSET]) + Body(sol, mints, tail)
    {
      hide EncodeCap, EncodeMints, Splice;
      ghost var front := data[..SOL_CAP_OFFSET];
      SpliceExtends(data, SOL_CAP_OFFSET, EncodeCap(sol));
      data := Splice(data, SOL_CAP_OFFSET, EncodeCap(sol));
      SpliceExtends(data, SOL_CAP_END, NO_PADDING);
      data := Splice(data, SOL_CAP_END, NO_PADDING);
      SpliceExtends(data, MINT_LEN_OFFSET, Le(|mints|, 4));
      data := Splice(data, MINT_LEN_OFFSET, Le(|mints|, 4));
      SpliceExtends(data, MINTS_OFFSET, EncodeMints(mints));
      data := Splice(data, MINTS_OFFSET, EncodeMints(mints));
      var end := MINTS_OFFSET + MINT_CAP_LEN * |mints|;
      SpliceExtends(data, end, tail);
      data := Splice(data, end, tail);
      assert data == data[..|data|] == front + EncodeCap(sol) + NO_PADDING + Le(|mints|, 4) + EncodeMints(mints) + tail;
      BodyConcat(front, sol, mints, tail);
    }

    /** Cut or zero-extend the account to `n` bytes, mark it, and write everything after the header. */
    method Rewrite(n: nat, version: u8, sol: SpendCap, mints: seq<MintCap>, tail: seq<byte>)
      requires |data| >= SOL_CAP_OFFSET && n == MINTS_OFFSET + MINT_CAP_LEN * |mints| + |tail|
      modifies this`data
      ensures data == WithMarker(old(data)[..SOL_CAP_OFFSET], version) + Body(sol, mints, tail)
    {
      hide Body;
      ghost var front := data[..SOL_CAP_OFFSET];
      data := Resized(data, n);
      assert data[..SOL_CAP_OFFSET] == front;
      data := WithMarker(data, version);
      assert data[..SOL_CAP_OFFSET] == WithMarker(front, version);
      WritePolicy(sol, mints, tail);
    }

    /** Leave the account `minimum` and give `receiver` the rest, if both balances can hold. */
    method RefundTo(receiver: Pubkey, minimum: nat) returns (r: Result<(), PhygitalError>)
      requires receiver != env.address
      modifies this`lamports
      ensures match Refund(env, old(lamports), receiver, minimum)
              case Err(e) => r == Err(e) && lamports == old(lamports)
              case Ok(m) => r == Ok(()) && lamports == m
    {
      var held := Balance(lamports, env.address);
      if held < minimum {
        return Err(InvalidAccountData);
      }
      var balance := Balance(lamports, receiver) + (held - minimum);
      if balance >= TWO_64 {
        return Err(InvalidAccountData);
      }
      lamports := lamports[env.address := minimum];
      lamports := lamports[receiver := balance];
      r := Ok(());
    }

    method SetAuthorityHandler(c: SetAuthorityCall) returns (r: Result<(), PhygitalError>)
      modifies this
      ensures Commits(SetAuthority(env, old(State()), c), r, old(State()), State())
    {
      if !c.allowed || live || c.payer == env.address {
        return Err(Runtime);
      }
      if c.authority == DefaultPubkey() {
        return Err(InvalidAuthority);
      }
      var paid := TopUp(env, lamports, c.payer, env.rent(BASE_LEN));
      if paid.None? {
        return Err(Runtime);
      }
      lamports := paid.value;
      live := true;
      data := env.layout.discriminator + EncodeHeader(NewHeader(c)) + Body(NO_CAP, [], EncodePermissions([]));
      r := Ok(());
    }

    /** No default or wrapped-SOL mint, and no mint twice. */
    method CheckMints(mints: seq<MintCapArg>) returns (ok: bool)
      ensures ok == MintsAcceptable(env, mints)
    {
      for i := 0 to |mints|
        invariant MintsAcceptable(env, mints[..i])
      {
        if mints[i].mint == DefaultPubkey() || mints[i].mint in env.wsolMints {
          return false;
        }
        for j := 0 to i
          invariant forall k :: 0 <= k < j ==> mints[k].mint != mints[i].mint
        {
          if mints[j].mint == mints[i].mint {
            return false;
          }
        }
      }
      assert mints[..|mints|] == mints;
      ok := true;
    }

    method CheckArgs(args: PolicyArgs) returns (ok: bool)
      ensures ok == ArgsAcceptable(env, args)
    {
      ok := CheckMints(args.mints);
      if ok {
        ok := ValidatePermissions(env.layout.sizes, env.layout.programs, args.permissions);
      }
      if ok {
        ok := |EncodePermissions(args.permissions)| <= MAX_PERMISSION_BYTES;
      }
    }

    method SetPolicyHandler(c: SetPolicyCall) returns (r: Result<(), PhygitalError>)
      modifies this
      ensures Commits(SetPolicy(env, old(State()), c), r, old(State()), State())
    {
      hide Save, ReadHeader, Read, ReadPolicy, NewPolicy, ArgsAcceptable;
      if !c.allowed || !live || c.payer == env.address {
        return Err(Runtime);
      }
      var header := ReadHeader(env.layout, data);
      if header.Err? {
        return Err(header.error);
      }
      if c.receiver != header.value.payer {
        return Err(AuthorityPayerMismatch);
      }
      if c.receiver == env.address {
        return Err(InvalidAccountData);
      }
      var acceptable := CheckArgs(c.args);
      if !acceptable {
        return Err(InvalidPolicyArgs);
      }
      if header.value.authority != c.signer {
        return Err(AuthorityMismatch);
      }
      var previous := Previous(env.layout, data);
      if previous.Err? {
        return Err(previous.error);
      }
      var policy := NewPolicy(c.args, previous.value, c.now);
      if policy.Err? {
        return Err(policy.error);
      }
      HeaderFits(env.layout, data);
      r := SavePolicy(c, policy.value);
    }

    /** Fund the new size, resize, refund a shrink, then mark and rewrite the account. */
    method SavePolicy(c: SetPolicyCall, policy: Policy) returns (r: Result<(), PhygitalError>)
      requires live && c.payer != env.address && c.receiver != env.address && |data| >= SOL_CAP_OFFSET
      modifies this
      ensures Commits(Save(env, old(State()), c, policy), r, old(State()), State())
    {
      var saved := lamports;
      var tail := EncodePermissions(policy.permissions);
      PermissionTailLength(policy.permissions);
      hide EncodePermissions, Body, Refund, TopUp, Balance;
      var newLen := BASE_LEN + MINT_CAP_LEN * |policy.mints| + (|tail| - 4);
      var minimum := env.rent(newLen);
      var paid := TopUp(env, lamports, c.payer, minimum);
      if paid.None? {
        return Err(Runtime);
      }
      lamports := paid.value;
      if newLen != |data| && !c.resizable {
        lamports := saved;
        return Err(Runtime);
      }
      if newLen < |data| {
        r := RefundTo(c.receiver, minimum);
        if r.Err? {
          lamports := saved;
          return;
        }
      }
      Rewrite(newLen, WALLET_POLICY_VERSION, policy.sol, policy.mints, tail);
      r := Ok(());
    }

    method ClearPolicyHandler(c: ClearCall) returns (r: Result<(), PhygitalError>)
      modifies this
      ensures Commits(ClearPolicy(env, old(State()), c), r, old(State()), State())
    {
      hide DecodeHeader, Body;
      if !c.allowed || !live {
        return Err(Runtime);
      }
      var header := ReadHeader(env.layout, data);
      if header.Err? {
        return Err(header.error);
      }
      if c.receiver != header.value.payer {
        return Err(AuthorityPayerMismatch);
      }
      if c.receiver == env.address {
        return Err(InvalidAccountData);
      }
      if header.value.authority != c.signer {
        return Err(AuthorityMismatch);
      }
      if header.value.policyVersion == 0 && |data| == BASE_LEN && AllZero(data[SOL_CAP_OFFSET..]) {
        return Err(InvalidAccountData);
      }
      r := RefundTo(c.receiver, env.rent(BASE_LEN));
      if r.Err? {
        return;
      }
      Rewrite(BASE_LEN, 0, NO_CAP, [], [0, 0, 0, 0]);
    }

    method ClearAuthorityHandler(c: ClearCall) returns (r: Result<(), PhygitalError>)
      modifies this
      ensures Commits(ClearAuthority(env, old(State()), c), r, old(State()), State())
    {
      if !c.allowed || !live {
        return Err(Runtime);
      }
      var header := ReadHeader(env.layout, data);
      if header.Err? {
        return Err(header.error);
      }
      if c.receiver != header.value.payer {
        return Err(AuthorityPayerMismatch);
      }
      if c.receiver == env.address {
        return Err(InvalidAccountData);
      }
      if header.value.authority != c.signer {
        return Err(AuthorityMismatch);
      }
      r := RefundTo(c.receiver, 0);
      if r.Err? {
        return;
      }
      live, data := false, [];
    }

    /** Load the counter the charge names, charge it, and store it back over the same bytes. */
    method ChargeHandler(c: ChargeCall) returns (r: Result<(), PhygitalError>)
      modifies this
      ensures Commits(ChargeSlot(env, old(State()), c), r, old(State()), State())
    {
      hide ChargeCap, DecodeCap, EncodeCap;
      if !c.allowed || !live {
        return Err(Runtime);
      }
      var header := Read(env.layout, data);
      if header.Err? {
        return Err(header.error);
      }
      if !header.value.1 {
        return Err(Runtime);
      }
      var end := ParseLayout(data);
      if end.Err? {
        return Err(end.error);
      }
      if c.mint.Some? && MINTS_OFFSET + MINT_CAP_LEN * (c.mint.value + 1) > end.value {
        return Err(InvalidAccountData);
      }
      var at := SlotOffset(c.mint);
      var slot := new CapSlot(DecodeCap(data[at..at + SPEND_CAP_LEN]));
      var outcome := slot.Charge(c.amount, c.now);
      if outcome.Err? {
        return Err(outcome.error);
      }
      data := Splice(data, at, EncodeCap(slot.Value()));
      r := Ok(());
    }
  }
}
