/**
 * Whole runs of the authority account. The bytes always stand for the account the owner expects:
 * present or absent, with its header, and with the saved policy up to what has been spent.
 */
module AuthorityLifecycle {
  import opened Bytes
  import opened Wrappers
  import opened Errors
  import opened PolicyTypes
  import opened PolicyCodec
  import opened SpendingLimit
  import opened AuthorityLayout
  import opened AuthorityHandlers
  import opened MapSum

  datatype Account = Absent | Present(header: AuthorityHeader, policy: Option<Policy>)

  datatype Op =
    | OpSetAuthority(a: SetAuthorityCall)
    | OpSetPolicy(p: SetPolicyCall)
    | OpClearPolicy(c: ClearCall)
    | OpCharge(k: ChargeCall)
    | OpClearAuthority(c: ClearCall)
    | OpDonate(from: Pubkey, amount: nat)

  const EMPTY_POLICY := Policy(NO_CAP, [], [])

  /** What the bytes do; anyone may also send the account lamports. */
  function Perform(env: Env, w: World, op: Op): Result<World, PhygitalError> {
    match op
    case OpSetAuthority(c) => SetAuthority(env, w, c)
    case OpSetPolicy(c) => SetPolicy(env, w, c)
    case OpClearPolicy(c) => ClearPolicy(env, w, c)
    case OpCharge(c) => ChargeSlot(env, w, c)
    case OpClearAuthority(c) => ClearAuthority(env, w, c)
    case OpDonate(from, amount) =>
      if from == env.address then Err(Runtime)
      else
        match Transfer(w.lamports, from, env.address, amount)
        case None => Err(Runtime)
        case Some(m) => Ok(w.(lamports := m))
  }

  function Charged(p: Policy, c: ChargeCall): Policy {
    match c.mint
    case None => p.(sol := ChargeCap(p.sol, c.amount, c.now).1)
    case Some(i) =>
      if i < |p.mints| then
        p.(mints := p.mints[i := p.mints[i].(cap := ChargeCap(p.mints[i].cap, c.amount, c.now).1)])
      else p
  }

  /** What the owner expects after an operation that succeeded. */
  function Expect(a: Account, op: Op): Account {
    match op
    case OpSetAuthority(c) => Present(NewHeader(c), Some(EMPTY_POLICY))
    case OpSetPolicy(c) =>
      if a.Absent? then a
      else
        (match NewPolicy(c.args, a.policy, c.now)
         case Err(_) => a
         case Ok(p) => Present(a.header, Some(p)))
    case OpClearPolicy(_) => if a.Absent? then a else Present(a.header, None)
    case OpCharge(c) =>
      if a.Absent? || a.policy.None? then a else Present(a.header, Some(Charged(a.policy.value, c)))
    case OpClearAuthority(_) => Absent
    case OpDonate(_, _) => a
  }

  /** The bytes and balance of the world stand for the expected account. */
  ghost predicate Refines(env: Env, w: World, a: Account) {
    match a
    case Absent => !w.live && w.data == []
    case Present(header, policy) =>
      && w.live
      && w.data == Image(env.layout, header, policy)
      && (policy.Some? ==> Savable(env.layout, policy.value))
      && Balance(w.lamports, env.address) >= env.rent(|w.data|)
  }

  // ---------------------------------------------------------------- one operation at a time

  lemma {:induction false} MarkerChanges(d: Discriminator, h: AuthorityHeader, version: u8)
    ensures WithMarker(d + EncodeHeader(h), version) == d + EncodeHeader(h.(policyVersion := version))
  {
    var keys := h.authority + h.phygitalToken + h.payer + [h.bump, h.walletBump, h.version];
    assert EncodeHeader(h) == keys + [h.policyVersion] + h.padding;
    assert EncodeHeader(h.(policyVersion := version)) == keys + [version] + h.padding;
  }

  /** The part before the body, whatever the policy is. */
  lemma {:induction false} ImageFront(l: Layout, h: AuthorityHeader, policy: Option<Policy>)
    ensures var front := l.discriminator + EncodeHeader(Marked(h, policy));
            && |Image(l, h, policy)| >= SOL_CAP_OFFSET
            && Image(l, h, policy)[..SOL_CAP_OFFSET] == front
            && WithMarker(front, WALLET_POLICY_VERSION) == l.discriminator + EncodeHeader(Marked(h, Some(EMPTY_POLICY)))
            && WithMarker(front, 0) == l.discriminator + EncodeHeader(Marked(h, None))
  {
    hide EncodeHeader, Body, EncodePermissions;
    MarkerChanges(l.discriminator, Marked(h, policy), WALLET_POLICY_VERSION);
    MarkerChanges(l.discriminator, Marked(h, policy), 0);
  }

  lemma {:induction false} ImageOfPolicy(l: Layout, h: AuthorityHeader, p: Policy)
    ensures Image(l, h, Some(p))
         == l.discriminator + EncodeHeader(Marked(h, Some(EMPTY_POLICY)))
            + Body(p.sol, p.mints, EncodePermissions(p.permissions))
  {
  }

  lemma {:induction false} EmptyPolicySavable(l: Layout)
    ensures Savable(l, EMPTY_POLICY)
  {
    assert EncodePermissions([]) == Le(0, 4) + [];
    assert PermissionsHeap(l.sizes, []) == 0;
  }

  lemma {:induction false} TopUpReaches(env: Env, m: Lamports, payer: Pubkey, minimum: nat)
    requires payer != env.address && TopUp(env, m, payer, minimum).Some?
    ensures Balance(TopUp(env, m, payer, minimum).value, env.address) >= minimum
  {
  }

  lemma {:induction false} SetAuthorityRefines(env: Env, w: World, a: Account, c: SetAuthorityCall)
    requires Refines(env, w, a) && SetAuthority(env, w, c).Ok?
    ensures Refines(env, SetAuthority(env, w, c).value, Expect(a, OpSetAuthority(c)))
  {
    hide EncodeHeader, Body, EncodePermissions, Savable;
    TopUpReaches(env, w.lamports, c.payer, env.rent(BASE_LEN));
    EmptyPolicySavable(env.layout);
    ImageOfPolicy(env.layout, NewHeader(c), EMPTY_POLICY);
    EmptyTailLength();
  }

  lemma {:induction false} EmptyTailLength()
    ensures |EncodePermissions([])| == 4
  {
    assert EncodePermissions([]) == Le(0, 4) + [];
  }

  /** The header and policy the handler reads back are the expected ones. */
  lemma {:induction false} PreviousIsExpected(env: Env, w: World, h: AuthorityHeader, policy: Option<Policy>)
    requires Refines(env, w, Present(h, policy))
    ensures ReadHeader(env.layout, w.data) == Ok(Marked(h, policy))
    ensures Read(env.layout, w.data) == Ok((Marked(h, policy), policy.Some?))
    ensures Previous(env.layout, w.data) == Ok(policy)
  {
    hide Image, ReadHeader, ParseLayout, ReadPolicy;
    ImageReads(env.layout, h, policy);
    ReadHasHeader(env.layout, w.data);
  }

  lemma {:induction false} ReadHasHeader(l: Layout, data: seq<byte>)
    ensures Read(l, data).Ok? ==> ReadHeader(l, data) == Ok(Read(l, data).value.0)
  {
  }

  lemma {:induction false} NewPolicySavable(env: Env, args: PolicyArgs, previous: Option<Policy>, now: i64)
    requires ArgsAcceptable(env, args) && NewPolicy(args, previous, now).Ok?
    ensures Savable(env.layout, NewPolicy(args, previous, now).value)
    ensures NewPolicy(args, previous, now).value.permissions == args.permissions
    ensures |NewPolicy(args, previous, now).value.mints| == |args.mints|
  {
  }

  lemma {:induction false} SaveRefines(env: Env, w: World, h: AuthorityHeader, previous: Option<Policy>,
                                       c: SetPolicyCall, p: Policy)
    requires Refines(env, w, Present(h, previous)) && Savable(env.layout, p)
    requires c.payer != env.address && c.receiver != env.address && |w.data| >= SOL_CAP_OFFSET
    requires Save(env, w, c, p).Ok?
    ensures Refines(env, Save(env, w, c, p).value, Present(h, Some(p)))
  {
    hide EncodeHeader, Body, EncodePermissions, Savable, TopUp;
    ImageFront(env.layout, h, previous);
    ImageOfPolicy(env.layout, h, p);
    var minimum := env.rent(MINTS_OFFSET + MINT_CAP_LEN * |p.mints| + |EncodePermissions(p.permissions)|);
    TopUpReaches(env, w.lamports, c.payer, minimum);
  }

  lemma {:induction false} SetPolicyRefines(env: Env, w: World, a: Account, c: SetPolicyCall)
    requires Refines(env, w, a) && SetPolicy(env, w, c).Ok?
    ensures Refines(env, SetPolicy(env, w, c).value, Expect(a, OpSetPolicy(c)))
  {
    hide Save, NewPolicy, ArgsAcceptable, Image, Savable, ReadHeader, Read, Previous;
    PreviousIsExpected(env, w, a.header, a.policy);
    NewPolicySavable(env, c.args, a.policy, c.now);
    HeaderFits(env.layout, w.data);
    SaveRefines(env, w, a.header, a.policy, c, NewPolicy(c.args, a.policy, c.now).value);
  }

  lemma {:induction false} ClearPolicyRefines(env: Env, w: World, a: Account, c: ClearCall)
    requires Refines(env, w, a) && ClearPolicy(env, w, c).Ok?
    ensures Refines(env, ClearPolicy(env, w, c).value, Expect(a, OpClearPolicy(c)))
  {
    hide EncodeHeader, Body, EncodePermissions, ReadHeader;
    ImageFront(env.layout, a.header, a.policy);
  }

  // ---------------------------------------------------------------- counters inside the bytes

  lemma {:induction false} MintSlot(ms: seq<MintCap>, i: nat, cap: SpendCap)
    requires i < |ms|
    ensures EncodeMints(ms)[MINT_CAP_LEN * i + 32..MINT_CAP_LEN * i + 64] == EncodeCap(ms[i].cap)
    ensures Splice(EncodeMints(ms), MINT_CAP_LEN * i + 32, EncodeCap(cap)) == EncodeMints(ms[i := ms[i].(cap := cap)])
  {
    hide EncodeCap;
    var b := EncodeMints(ms);
    var changed := ms[i := ms[i].(cap := cap)];
    if i == 0 {
      assert b == ms[0].mint + EncodeCap(ms[0].cap) + EncodeMints(ms[1..]);
      assert changed[1..] == ms[1..];
      assert EncodeMints(changed) == ms[0].mint + EncodeCap(cap) + EncodeMints(ms[1..]);
    } else {
      var tail := EncodeMints(ms[1..]);
      var k := MINT_CAP_LEN * (i - 1) + 32;
      MintSlot(ms[1..], i - 1, cap);
      assert changed[1..] == ms[1..][i - 1 := ms[1..][i - 1].(cap := cap)];
      assert b == EncodeMint(ms[0]) + tail;
      assert b[MINT_CAP_LEN * i + 32..MINT_CAP_LEN * i + 64] == tail[k..k + 32];
      SpliceAfter(EncodeMint(ms[0]), tail, k, EncodeCap(cap));
    }
  }

  lemma {:induction false} SpliceAfter(a: seq<byte>, b: seq<byte>, k: nat, bytes: seq<byte>)
    requires k + |bytes| <= |b|
    ensures Splice(a + b, |a| + k, bytes) == a + Splice(b, k, bytes)
  {
  }

  lemma {:induction false} SpliceBefore(a: seq<byte>, b: seq<byte>, k: nat, bytes: seq<byte>)
    requires k + |bytes| <= |a|
    ensures Splice(a + b, k, bytes) == Splice(a, k, bytes) + b
  {
  }

  lemma {:induction false} SolSlot(front: seq<byte>, p: Policy, tail: seq<byte>, cap: SpendCap)
    requires |front| == SOL_CAP_OFFSET
    ensures var data := front + Body(p.sol, p.mints, tail);
            && data[SOL_CAP_OFFSET..SOL_CAP_END] == EncodeCap(p.sol)
            && Splice(data, SOL_CAP_OFFSET, EncodeCap(cap)) == front + Body(cap, p.mints, tail)
  {
    hide EncodeCap, EncodeMints;
    var rest := NO_PADDING + (Le(|p.mints|, 4) + (EncodeMints(p.mints) + tail));
    SpliceAfter(front, EncodeCap(p.sol) + rest, 0, EncodeCap(cap));
    SpliceBefore(EncodeCap(p.sol), rest, 0, EncodeCap(cap));
    assert Splice(EncodeCap(p.sol), 0, EncodeCap(cap)) == EncodeCap(cap);
  }

  lemma {:induction false} MintSlotInBody(front: seq<byte>, p: Policy, tail: seq<byte>, i: nat, cap: SpendCap)
    requires |front| == SOL_CAP_OFFSET && i < |p.mints|
    ensures var data := front + Body(p.sol, p.mints, tail);
            var at := MINTS_OFFSET + MINT_CAP_LEN * i + 32;
            && data[at..at + SPEND_CAP_LEN] == EncodeCap(p.mints[i].cap)
            && Splice(data, at, EncodeCap(cap)) == front + Body(p.sol, p.mints[i := p.mints[i].(cap := cap)], tail)
  {
    hide EncodeCap, EncodeMints, Splice;
    var fixed := front + EncodeCap(p.sol) + NO_PADDING + Le(|p.mints|, 4);
    var mints := EncodeMints(p.mints);
    var k := MINT_CAP_LEN * i + 32;
    var data := front + Body(p.sol, p.mints, tail);
    assert data == fixed + (mints + tail);
    MintSlot(p.mints, i, cap);
    assert data[MINTS_OFFSET + k..MINTS_OFFSET + k + SPEND_CAP_LEN] == mints[k..k + SPEND_CAP_LEN];
    SpliceAfter(fixed, mints + tail, k, EncodeCap(cap));
    SpliceBefore(mints, tail, k, EncodeCap(cap));
    var changed := p.mints[i := p.mints[i].(cap := cap)];
    assert front + Body(p.sol, changed, tail) == fixed + (EncodeMints(changed) + tail);
  }

  /** Where a charge writes, and what the bytes are once it has. */
  lemma {:induction false} ChargeWrites(l: Layout, h: AuthorityHeader, p: Policy, c: ChargeCall)
    requires c.mint.Some? ==> c.mint.value < |p.mints|
    ensures var data := Image(l, h, Some(p));
            var at := SlotOffset(c.mint);
            var cap := if c.mint.None? then p.sol else p.mints[c.mint.value].cap;
            && at + SPEND_CAP_LEN <= |data|
            && DecodeCap(data[at..at + SPEND_CAP_LEN]) == cap
            && Splice(data, at, EncodeCap(ChargeCap(cap, c.amount, c.now).1)) == Image(l, h, Some(Charged(p, c)))
  {
    hide EncodeHeader, Body, EncodePermissions, EncodeCap, DecodeCap, EncodeMints, ChargeCap, Splice;
    var front := l.discriminator + EncodeHeader(Marked(h, Some(p)));
    var tail := EncodePermissions(p.permissions);
    match c.mint
    case None =>
      SolSlot(front, p, tail, ChargeCap(p.sol, c.amount, c.now).1);
      CapRoundTrip(p.sol);
    case Some(i) =>
      MintSlotInBody(front, p, tail, i, ChargeCap(p.mints[i].cap, c.amount, c.now).1);
      CapRoundTrip(p.mints[i].cap);
  }

  lemma {:induction false} ImageParses(l: Layout, h: AuthorityHeader, p: Policy)
    requires |p.mints| < 0x1_0000_0000
    ensures ParseLayout(Image(l, h, Some(p))) == Ok(MINTS_OFFSET + MINT_CAP_LEN * |p.mints|)
  {
    hide EncodeHeader, Body, EncodePermissions, ParseLayout;
    PermissionTailLength(p.permissions);
    BodyParses(l.discriminator + EncodeHeader(Marked(h, Some(p))), p.sol, p.mints, EncodePermissions(p.permissions));
  }

  lemma {:induction false} ChargedIsSavable(l: Layout, p: Policy, c: ChargeCall)
    requires Savable(l, p)
    ensures Savable(l, Charged(p, c))
  {
    hide ChargeCap;
  }

  /** What a successful charge did to the bytes, in terms of where it looked. */
  lemma {:induction false} ChargeSpliced(env: Env, w: World, c: ChargeCall, end: nat, cap: SpendCap)
    requires ChargeSlot(env, w, c).Ok? && ParseLayout(w.data) == Ok(end)
    requires var at := SlotOffset(c.mint);
             at + SPEND_CAP_LEN <= |w.data| ==> DecodeCap(w.data[at..at + SPEND_CAP_LEN]) == cap
    ensures w.live
    ensures SlotOffset(c.mint) + SPEND_CAP_LEN <= |w.data|
    ensures ChargeSlot(env, w, c).value
         == w.(data := Splice(w.data, SlotOffset(c.mint), EncodeCap(ChargeCap(cap, c.amount, c.now).1)))
  {
    hide EncodeCap, DecodeCap, ChargeCap, Splice, Read;
  }

  lemma {:induction false} ChargeRefines(env: Env, w: World, a: Account, c: ChargeCall)
    requires Refines(env, w, a) && ChargeSlot(env, w, c).Ok?
    ensures Refines(env, ChargeSlot(env, w, c).value, Expect(a, OpCharge(c)))
  {
    hide Image, EncodeCap, DecodeCap, ChargeCap, Charged, Splice, Read, ReadHeader, ParseLayout, ChargeSlot, Savable;
    ChargedAreActive(env, w, a, c);
    var p := a.policy.value;
    MintsFit(env.layout, p);
    ImageParses(env.layout, a.header, p);
    var end := MINTS_OFFSET + MINT_CAP_LEN * |p.mints|;
    ChargedSlotExists(env, w, c, end);
    ChargeWrites(env.layout, a.header, p, c);
    ChargeSpliced(env, w, c, end, if c.mint.None? then p.sol else p.mints[c.mint.value].cap);
    ChargedIsSavable(env.layout, p, c);
  }

  lemma {:induction false} ChargedAreActive(env: Env, w: World, a: Account, c: ChargeCall)
    requires Refines(env, w, a) && ChargeSlot(env, w, c).Ok?
    ensures a.Present? && a.policy.Some?
  {
    hide Image, Read, ReadHeader, ParseLayout, Splice, ChargeCap, Savable;
    if a.Present? {
      PreviousIsExpected(env, w, a.header, a.policy);
    }
  }

  lemma {:induction false} MintsFit(l: Layout, p: Policy)
    requires Savable(l, p)
    ensures |p.mints| < 0x1_0000_0000
  {
  }

  lemma {:induction false} ChargedSlotExists(env: Env, w: World, c: ChargeCall, end: nat)
    requires ChargeSlot(env, w, c).Ok? && ParseLayout(w.data) == Ok(end)
    ensures c.mint.Some? ==> MINTS_OFFSET + MINT_CAP_LEN * (c.mint.value + 1) <= end
  {
    hide Read, DecodeCap, ChargeCap, Splice;
  }

  /** Every operation that succeeds on the bytes is the one the owner expects. */
  lemma {:induction false} PerformRefines(env: Env, w: World, a: Account, op: Op)
    requires Refines(env, w, a) && Perform(env, w, op).Ok?
    ensures Refines(env, Perform(env, w, op).value, Expect(a, op))
  {
    match op
    case OpSetAuthority(c) => SetAuthorityRefines(env, w, a, c);
    case OpSetPolicy(c) => SetPolicyRefines(env, w, a, c);
    case OpClearPolicy(c) => ClearPolicyRefines(env, w, a, c);
    case OpCharge(c) => ChargeRefines(env, w, a, c);
    case OpClearAuthority(_) =>
    case OpDonate(_, _) =>
  }

  // ---------------------------------------------------------------- whole runs

  /** Running a list of instructions; a failed one is undone. */
  function RunWorld(env: Env, w: World, ops: seq<Op>): World {
    if ops == [] then w
    else
      var before := RunWorld(env, w, ops[..|ops| - 1]);
      match Perform(env, before, ops[|ops| - 1])
      case Err(_) => before
      case Ok(after) => after
  }

  predicate Succeeds(env: Env, w: World, ops: seq<Op>)
    requires ops != []
  {
    Perform(env, RunWorld(env, w, ops[..|ops| - 1]), ops[|ops| - 1]).Ok?
  }

  /** The account the owner expects after the instructions that went through. */
  function RunAccount(env: Env, w: World, ops: seq<Op>): Account {
    if ops == [] then Absent
    else
      var before := RunAccount(env, w, ops[..|ops| - 1]);
      if Succeeds(env, w, ops) then Expect(before, ops[|ops| - 1]) else before
  }

  lemma {:induction false} RunRefines(env: Env, w: World, ops: seq<Op>)
    requires Refines(env, w, Absent)
    ensures Refines(env, RunWorld(env, w, ops), RunAccount(env, w, ops))
  {
    if ops != [] {
      var before := ops[..|ops| - 1];
      RunRefines(env, w, before);
      if Succeeds(env, w, ops) {
        PerformRefines(env, RunWorld(env, w, before), RunAccount(env, w, before), ops[|ops| - 1]);
      }
    }
  }

  /**
   * In every run a live account passes `read` and is rent-exempt, and its policy reads back as
   * expected, counters included.
   */
  lemma {:induction false} RunReadsBack(env: Env, w: World, ops: seq<Op>)
    requires Refines(env, w, Absent)
    ensures var now, a := RunWorld(env, w, ops), RunAccount(env, w, ops);
            && (now.live <==> a.Present?)
            && (a.Present? ==>
                  && Read(env.layout, now.data) == Ok((Marked(a.header, a.policy), a.policy.Some?))
                  && Balance(now.lamports, env.address) >= env.rent(|now.data|)
                  && (a.policy.Some? ==> ReadPolicy(env.layout, now.data) == Ok(a.policy.value)))
  {
    hide Read, ReadPolicy, Image, Savable;
    RunRefines(env, w, ops);
    var a := RunAccount(env, w, ops);
    if a.Present? {
      ImageReads(env.layout, a.header, a.policy);
    }
  }

  // ---------------------------------------------------------------- what was saved last

  /** The caps and permissions the owner last saved; set_authority saves an empty policy. */
  function LastSaved(env: Env, w: World, ops: seq<Op>): Option<PolicyArgs> {
    if ops == [] then None
    else
      var before := LastSaved(env, w, ops[..|ops| - 1]);
      if !Succeeds(env, w, ops) then before
      else
        match ops[|ops| - 1]
        case OpSetAuthority(_) => Some(PolicyArgs(None, [], []))
        case OpSetPolicy(c) => Some(c.args)
        case OpClearPolicy(_) => None
        case OpClearAuthority(_) => None
        case _ => before
  }

  /** The keys the account was created with. */
  function LastCreated(env: Env, w: World, ops: seq<Op>): Option<AuthorityHeader> {
    if ops == [] then None
    else
      var before := LastCreated(env, w, ops[..|ops| - 1]);
      if !Succeeds(env, w, ops) then before
      else
        match ops[|ops| - 1]
        case OpSetAuthority(c) => Some(NewHeader(c))
        case OpClearAuthority(_) => None
        case _ => before
  }

  predicate SameCap(c: SpendCap, cap: u64, windowSeconds: i64) {
    c.cap == cap && c.windowSeconds == windowSeconds
  }

  /** The policy states exactly these caps and permissions; only counters may differ. */
  predicate Terms(p: Policy, args: PolicyArgs) {
    && p.permissions == args.permissions
    && (match args.sol
        case None => p.sol == NO_CAP
        case Some(a) => SameCap(p.sol, a.cap, a.windowSeconds))
    && |p.mints| == |args.mints|
    && (forall i :: 0 <= i < |p.mints| ==>
          && p.mints[i].mint == args.mints[i].mint
          && SameCap(p.mints[i].cap, args.mints[i].cap, args.mints[i].windowSeconds))
  }

  lemma {:induction false} NewMintsTerms(args: seq<MintCapArg>, previous: seq<MintCap>, now: i64)
    requires NewMints(args, previous, now).Ok?
    ensures var ms := NewMints(args, previous, now).value;
            forall i :: 0 <= i < |ms| ==>
              ms[i].mint == args[i].mint && SameCap(ms[i].cap, args[i].cap, args[i].windowSeconds)
  {
    if args != [] {
      NewMintsTerms(args[1..], previous, now);
      var tail := NewMints(args[1..], previous, now).value;
      var ms := NewMints(args, previous, now).value;
      assert ms[1..] == tail;
      forall i | 0 <= i < |ms|
        ensures ms[i].mint == args[i].mint && SameCap(ms[i].cap, args[i].cap, args[i].windowSeconds)
      {
        if i > 0 {
          assert ms[i] == tail[i - 1] && args[i] == args[1..][i - 1];
        }
      }
    }
  }

  lemma {:induction false} NewPolicyTerms(args: PolicyArgs, previous: Option<Policy>, now: i64)
    requires NewPolicy(args, previous, now).Ok?
    ensures Terms(NewPolicy(args, previous, now).value, args)
  {
    NewMintsTerms(args.mints, if previous.Some? then previous.value.mints else [], now);
  }

  lemma {:induction false} ChargeKeepsCap(c: SpendCap, amount: u64, now: i64)
    ensures SameCap(ChargeCap(c, amount, now).1, c.cap, c.windowSeconds)
    ensures c == NO_CAP ==> ChargeCap(c, amount, now).1 == NO_CAP
  {
  }

  lemma {:induction false} ChargeKeepsTerms(p: Policy, args: PolicyArgs, c: ChargeCall)
    requires Terms(p, args)
    ensures Terms(Charged(p, c), args)
  {
    hide ChargeCap;
    ChargeKeepsCap(p.sol, c.amount, c.now);
    if c.mint.Some? && c.mint.value < |p.mints| {
      ChargeKeepsCap(p.mints[c.mint.value].cap, c.amount, c.now);
    }
  }

  /** An active policy always states what was last saved, under the keys given at creation. */
  lemma {:induction false} RunKeepsTerms(env: Env, w: World, ops: seq<Op>)
    requires Refines(env, w, Absent)
    ensures var a, saved := RunAccount(env, w, ops), LastSaved(env, w, ops);
            && (a.Present? ==> LastCreated(env, w, ops) == Some(a.header))
            && (a.Present? && a.policy.Some? ==> saved.Some? && Terms(a.policy.value, saved.value))
            && (a.Absent? || a.policy.None? ==> saved.None?)
  {
    if ops != [] {
      var before, op := ops[..|ops| - 1], ops[|ops| - 1];
      RunKeepsTerms(env, w, before);
      if Succeeds(env, w, ops) {
        RunRefines(env, w, before);
        StepKeepsTerms(env, RunWorld(env, w, before), RunAccount(env, w, before), op, LastSaved(env, w, before));
      }
    }
  }

  lemma {:induction false} StepKeepsTerms(env: Env, w: World, a: Account, op: Op, saved: Option<PolicyArgs>)
    requires Refines(env, w, a) && Perform(env, w, op).Ok?
    requires a.Present? && a.policy.Some? ==> saved.Some? && Terms(a.policy.value, saved.value)
    requires a.Absent? || a.policy.None? ==> saved.None?
    ensures op.OpCharge? ==> a.Present? && a.policy.Some? && Terms(Expect(a, op).policy.value, saved.value)
    ensures op.OpSetPolicy? ==> a.Present? && NewPolicy(op.p.args, a.policy, op.p.now).Ok?
                                && Terms(Expect(a, op).policy.value, op.p.args)
    ensures op.OpClearPolicy? ==> a.Present?
  {
    hide Terms, Image, Savable, Read, ReadHeader, Save, NewPolicy, ArgsAcceptable, Charged, Previous;
    if a.Present? {
      PreviousIsExpected(env, w, a.header, a.policy);
    }
    match op
    case OpSetPolicy(c) =>
      NewPolicyTerms(c.args, a.policy, c.now);
    case OpCharge(c) =>
      ChargeKeepsTerms(a.policy.value, saved.value, c);
    case _ =>
  }

  // ---------------------------------------------------------------- saving the same terms again

  lemma {:induction false} FindMintAt(ms: seq<MintCap>, i: nat)
    requires i < |ms| && forall j, k :: 0 <= j < k < |ms| ==> ms[j].mint != ms[k].mint
    ensures FindMint(ms, ms[i].mint) == Some(ms[i].cap)
  {
    if i > 0 {
      assert ms[0].mint != ms[i].mint;
      FindMintAt(ms[1..], i - 1);
    }
  }

  lemma {:induction false} NewMintsUnchanged(args: seq<MintCapArg>, old_: seq<MintCap>, tail: seq<MintCap>, now: i64)
    requires NewMints(args, old_, now).Ok? && |args| == |tail|
    requires forall i :: 0 <= i < |args| ==>
               && args[i].mint == tail[i].mint
               && SameCap(tail[i].cap, args[i].cap, args[i].windowSeconds)
               && FindMint(old_, args[i].mint) == Some(tail[i].cap)
    ensures NewMints(args, old_, now).value == tail
  {
    if args != [] {
      assert args[0].mint == tail[0].mint;
      NewMintsUnchanged(args[1..], old_, tail[1..], now);
      assert tail == [tail[0]] + tail[1..];
    }
  }

  /** Saving a policy's own terms again, at any time, changes nothing: every counter survives. */
  lemma {:induction false} ResaveKeepsCounters(env: Env, args: PolicyArgs, p: Policy, now: i64)
    requires ArgsAcceptable(env, args) && Terms(p, args) && NewPolicy(args, Some(p), now).Ok?
    ensures NewPolicy(args, Some(p), now) == Ok(p)
  {
    assert forall j, k :: 0 <= j < k < |p.mints| ==> args.mints[j].mint != args.mints[k].mint;
    forall i | 0 <= i < |args.mints|
      ensures args.mints[i].mint == p.mints[i].mint && FindMint(p.mints, args.mints[i].mint) == Some(p.mints[i].cap)
    {
      FindMintAt(p.mints, i);
    }
    NewMintsUnchanged(args.mints, p.mints, p.mints, now);
  }

  // ---------------------------------------------------------------- lamports

  lemma {:induction false} TransferConserves(m: Lamports, from: Pubkey, to: Pubkey, amount: nat)
    requires from != to && Transfer(m, from, to, amount).Some?
    ensures Total(Transfer(m, from, to, amount).value) == Total(m)
  {
    if amount > 0 {
      TotalUpdate(m, from, Balance(m, from) - amount);
      TotalUpdate(m[from := Balance(m, from) - amount], to, Balance(m, to) + amount);
    }
  }

  lemma {:induction false} RefundConserves(env: Env, m: Lamports, receiver: Pubkey, minimum: nat)
    requires receiver != env.address && Refund(env, m, receiver, minimum).Ok?
    ensures Total(Refund(env, m, receiver, minimum).value) == Total(m)
  {
    TotalUpdate(m, env.address, minimum);
    TotalUpdate(m[env.address := minimum], receiver, Balance(m, receiver) + (Balance(m, env.address) - minimum));
  }

  lemma {:induction false} SaveConserves(env: Env, w: World, c: SetPolicyCall, p: Policy)
    requires c.payer != env.address && c.receiver != env.address && |w.data| >= SOL_CAP_OFFSET
    requires Save(env, w, c, p).Ok?
    ensures Total(Save(env, w, c, p).value.lamports) == Total(w.lamports)
  {
    hide Transfer, Refund, Body, EncodePermissions;
    var minimum := env.rent(MINTS_OFFSET + MINT_CAP_LEN * |p.mints| + |EncodePermissions(p.permissions)|);
    var held := Balance(w.lamports, env.address);
    TransferConserves(w.lamports, c.payer, env.address, if minimum > held then minimum - held else 0);
    var paid := TopUp(env, w.lamports, c.payer, minimum).value;
    if Refund(env, paid, c.receiver, minimum).Ok? {
      RefundConserves(env, paid, c.receiver, minimum);
    }
  }

  /** No instruction creates or destroys a lamport, whoever pays and whoever is refunded. */
  lemma {:induction false} PerformConserves(env: Env, w: World, op: Op)
    requires Perform(env, w, op).Ok?
    ensures Total(Perform(env, w, op).value.lamports) == Total(w.lamports)
  {
    hide Transfer, Refund, Body, EncodePermissions, Save, ArgsAcceptable, NewPolicy, Previous, ReadHeader, Read, Image;
    match op
    case OpSetAuthority(c) =>
      var held := Balance(w.lamports, env.address);
      var minimum := env.rent(BASE_LEN);
      TransferConserves(w.lamports, c.payer, env.address, if minimum > held then minimum - held else 0);
    case OpSetPolicy(c) =>
      HeaderFits(env.layout, w.data);
      var previous := Previous(env.layout, w.data).value;
      SaveConserves(env, w, c, NewPolicy(c.args, previous, c.now).value);
    case OpClearPolicy(c) =>
      RefundConserves(env, w.lamports, c.receiver, env.rent(BASE_LEN));
    case OpCharge(_) =>
    case OpClearAuthority(c) =>
      RefundConserves(env, w.lamports, c.receiver, 0);
    case OpDonate(from, amount) =>
      TransferConserves(w.lamports, from, env.address, amount);
  }

  lemma {:induction false} RunConserves(env: Env, w: World, ops: seq<Op>)
    ensures Total(RunWorld(env, w, ops).lamports) == Total(w.lamports)
  {
    if ops != [] {
      RunConserves(env, w, ops[..|ops| - 1]);
      if Succeeds(env, w, ops) {
        PerformConserves(env, RunWorld(env, w, ops[..|ops| - 1]), ops[|ops| - 1]);
      }
    }
  }

  // ---------------------------------------------------------------- refunds never fail

  ghost predicate Monotone(rent: nat -> nat) {
    forall a: nat, b: nat {:trigger rent(a), rent(b)} :: a <= b ==> rent(a) <= rent(b)
  }

  lemma {:induction false} TwoBalances(m: Lamports, a: Pubkey, b: Pubkey)
    requires a != b
    ensures Balance(m, a) + Balance(m, b) <= Total(m)
  {
    if a in m {
      TotalRemove(m, a);
      if b in m {
        TotalRemove(m - {a}, b);
        assert (m - {a})[b] == m[b];
      }
    } else if b in m {
      TotalRemove(m, b);
    }
  }

  lemma {:induction false} RefundSucceeds(env: Env, m: Lamports, receiver: Pubkey, minimum: nat)
    requires receiver != env.address && Total(m) < TWO_64 && Balance(m, env.address) >= minimum
    ensures Refund(env, m, receiver, minimum).Ok?
  {
    TwoBalances(m, env.address, receiver);
  }

  ghost predicate Authorized(env: Env, a: Account, signer: Pubkey, receiver: Pubkey) {
    a.Present? && signer == a.header.authority && receiver == a.header.payer && receiver != env.address
  }

  /** Clearing an active policy always succeeds for its owner, on every reachable account. */
  lemma {:induction false} ClearPolicySucceeds(env: Env, w: World, a: Account, c: ClearCall)
    requires Refines(env, w, a) && Monotone(env.rent) && Total(w.lamports) < TWO_64
    requires c.allowed && Authorized(env, a, c.signer, c.receiver) && a.policy.Some?
    ensures ClearPolicy(env, w, c).Ok?
  {
    hide Refund, Body, ReadHeader, Read, EncodeHeader;
    PreviousIsExpected(env, w, a.header, a.policy);
    HeaderFits(env.layout, w.data);
    ImageLongEnough(env.layout, a.header, a.policy);
    assert env.rent(BASE_LEN) <= env.rent(|w.data|);
    RefundSucceeds(env, w.lamports, c.receiver, env.rent(BASE_LEN));
  }

  lemma {:induction false} ImageLongEnough(l: Layout, h: AuthorityHeader, policy: Option<Policy>)
    ensures |Image(l, h, policy)| >= BASE_LEN
  {
    if policy.Some? {
      PermissionTailLength(policy.value.permissions);
    }
  }

  lemma {:induction false} ClearAuthoritySucceeds(env: Env, w: World, a: Account, c: ClearCall)
    requires Refines(env, w, a) && Total(w.lamports) < TWO_64
    requires c.allowed && Authorized(env, a, c.signer, c.receiver)
    ensures ClearAuthority(env, w, c).Ok?
  {
    hide Refund, ReadHeader, Read, Image;
    PreviousIsExpected(env, w, a.header, a.policy);
    RefundSucceeds(env, w.lamports, c.receiver, 0);
  }

  /** Saving acceptable caps succeeds once the payer covers the top-up and the runtime can resize. */
  lemma {:induction false} SetPolicySucceeds(env: Env, w: World, a: Account, c: SetPolicyCall)
    requires Refines(env, w, a) && Total(w.lamports) < TWO_64
    requires c.allowed && c.payer != env.address && Authorized(env, a, c.signer, c.receiver)
    requires ArgsAcceptable(env, c.args) && NewPolicy(c.args, a.policy, c.now).Ok? && c.resizable
    requires var newLen := MINTS_OFFSET + MINT_CAP_LEN * |c.args.mints| + |EncodePermissions(c.args.permissions)|;
             Balance(w.lamports, c.payer) + Balance(w.lamports, env.address) >= env.rent(newLen)
    ensures SetPolicy(env, w, c).Ok?
  {
    hide Refund, ReadHeader, Read, Image, EncodePermissions, Body, NewPolicy, ArgsAcceptable, Previous;
    PreviousIsExpected(env, w, a.header, a.policy);
    HeaderFits(env.layout, w.data);
    var p := NewPolicy(c.args, a.policy, c.now).value;
    NewPolicySavable(env, c.args, a.policy, c.now);
    var minimum := env.rent(MINTS_OFFSET + MINT_CAP_LEN * |p.mints| + |EncodePermissions(p.permissions)|);
    TwoBalances(w.lamports, env.address, c.payer);
    var topUp := TopUp(env, w.lamports, c.payer, minimum);
    assert topUp.Some?;
    TopUpReaches(env, w.lamports, c.payer, minimum);
    var held := Balance(w.lamports, env.address);
    TransferConserves(w.lamports, c.payer, env.address, if minimum > held then minimum - held else 0);
    RefundSucceeds(env, topUp.value, c.receiver, minimum);
  }
}
