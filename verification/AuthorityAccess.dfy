/** Who may change the account, to what, and what it costs whom. */
module AuthorityAccess {
  import opened Bytes
  import opened Wrappers
  import opened PolicyCodec
  import opened PolicyTypes
  import opened PolicyRules
  import opened SpendingLimit
  import opened AuthorityLayout
  import opened AuthorityHandlers
  import opened AuthorityLifecycle

  // ---------------------------------------------------------------- one instruction

  /** Caps the owner may ask for: real mints other than wrapped SOL, none twice, under a valid list. */
  ghost predicate Acceptable(env: Env, args: PolicyArgs) {
    && (forall m :: m in args.mints ==> m.mint != DefaultPubkey() && m.mint !in env.wsolMints)
    && (forall i, j :: 0 <= i < j < |args.mints| ==> args.mints[i].mint != args.mints[j].mint)
    && ValidPermissions(env.layout.sizes, env.layout.programs, args.permissions)
    && |EncodePermissions(args.permissions)| <= MAX_PERMISSION_BYTES
  }

  lemma {:induction false} SaveNeedsOwner(env: Env, w: World, a: Account, c: SetPolicyCall)
    requires Refines(env, w, a) && SetPolicy(env, w, c).Ok?
    ensures a.Present? && c.allowed && c.signer == a.header.authority && c.receiver == a.header.payer
    ensures Acceptable(env, c.args) && NewPolicy(c.args, a.policy, c.now).Ok?
  {
    hide Save, NewPolicy, Image, Savable, ReadHeader, Read, Previous, EncodePermissions, ValidPermissions;
    PreviousIsExpected(env, w, a.header, a.policy);
  }

  lemma {:induction false} ClearPolicyNeedsOwner(env: Env, w: World, a: Account, c: ClearCall)
    requires Refines(env, w, a) && ClearPolicy(env, w, c).Ok?
    ensures a.Present? && c.allowed && c.signer == a.header.authority && c.receiver == a.header.payer && a.policy.Some?
  {
    hide ReadHeader, Refund, Savable;
    PreviousIsExpected(env, w, a.header, a.policy);
    if a.policy.None? {
      ImageReads(env.layout, a.header, None);
      BareImage(env.layout, a.header);
    }
  }

  /** With no policy, what follows the header is all zero. */
  lemma {:induction false} BareImage(l: Layout, h: AuthorityHeader)
    ensures |Image(l, h, None)| == BASE_LEN && AllZero(Image(l, h, None)[SOL_CAP_OFFSET..])
  {
    hide EncodeHeader, Body;
    EmptyBodyIsZero();
    var front := l.discriminator + EncodeHeader(Marked(h, None));
    assert (front + Body(NO_CAP, [], [0, 0, 0, 0]))[SOL_CAP_OFFSET..] == Body(NO_CAP, [], [0, 0, 0, 0]);
  }

  lemma {:induction false} CloseNeedsOwner(env: Env, w: World, a: Account, c: ClearCall)
    requires Refines(env, w, a) && ClearAuthority(env, w, c).Ok?
    ensures a.Present? && c.allowed && c.signer == a.header.authority && c.receiver == a.header.payer
  {
    hide ReadHeader, Refund, Image, Savable;
    PreviousIsExpected(env, w, a.header, a.policy);
  }

  /** Whose signature each instruction rests on. */
  function Signer(op: Op): Option<Pubkey> {
    match op
    case OpSetPolicy(c) => Some(c.signer)
    case OpClearPolicy(c) => Some(c.signer)
    case OpClearAuthority(c) => Some(c.signer)
    case _ => None
  }

  function Receiver(op: Op): Option<Pubkey> {
    match op
    case OpSetPolicy(c) => Some(c.receiver)
    case OpClearPolicy(c) => Some(c.receiver)
    case OpClearAuthority(c) => Some(c.receiver)
    case _ => None
  }

  predicate Guarded(op: Op) {
    match op
    case OpSetAuthority(c) => c.allowed
    case OpSetPolicy(c) => c.allowed
    case OpClearPolicy(c) => c.allowed
    case OpCharge(c) => c.allowed
    case OpClearAuthority(c) => c.allowed
    case OpDonate(_, _) => true
  }

  /**
   * On every reachable account: an instruction that succeeds passed its guards; one that saves or
   * clears carries the owner's signature and refunds the payer on record; what is saved is acceptable,
   * what is cleared was there, and an account is only created where none is, for a real owner.
   */
  lemma {:induction false} OnlyTheOwner(env: Env, w: World, ops: seq<Op>, op: Op)
    requires Refines(env, w, Absent)
    ensures var a := RunAccount(env, w, ops);
            Succeeds(env, w, ops + [op]) ==>
              && Guarded(op)
              && (Signer(op).Some? ==>
                    a.Present? && Signer(op) == Some(a.header.authority) && Receiver(op) == Some(a.header.payer))
              && (op.OpSetAuthority? ==> a.Absent? && op.a.authority != DefaultPubkey())
              && (op.OpSetPolicy? ==> Acceptable(env, op.p.args))
              && (op.OpClearPolicy? || op.OpCharge? ==> a.Present? && a.policy.Some?)
  {
    hide Acceptable, SetPolicy, ClearPolicy, ClearAuthority, Image, Savable, ReadHeader, Read, ParseLayout, Splice, ChargeCap;
    assert (ops + [op])[..|ops|] == ops;
    RunRefines(env, w, ops);
    var now, a := RunWorld(env, w, ops), RunAccount(env, w, ops);
    if Succeeds(env, w, ops + [op]) {
      match op
      case OpSetPolicy(c) => SaveNeedsOwner(env, now, a, c);
      case OpClearPolicy(c) => ClearPolicyNeedsOwner(env, now, a, c);
      case OpClearAuthority(c) => CloseNeedsOwner(env, now, a, c);
      case OpCharge(c) =>
        if a.Present? {
          PreviousIsExpected(env, now, a.header, a.policy);
        }
      case _ =>
    }
  }

  // ---------------------------------------------------------------- whole runs

  /** The same caps and permissions; only counters may differ. */
  ghost predicate SameTerms(p: Policy, q: Policy) {
    && p.permissions == q.permissions
    && SameCap(q.sol, p.sol.cap, p.sol.windowSeconds)
    && |p.mints| == |q.mints|
    && forall i :: 0 <= i < |p.mints| ==>
         p.mints[i].mint == q.mints[i].mint && SameCap(q.mints[i].cap, p.mints[i].cap.cap, p.mints[i].cap.windowSeconds)
  }

  /** The same account to its owner: header, whether a policy is active, and the policy's terms. */
  ghost predicate SameToOwner(a: Account, b: Account) {
    && a.Present? && b.Present? && a.header == b.header
    && (a.policy.Some? <==> b.policy.Some?)
    && (a.policy.Some? ==> SameTerms(a.policy.value, b.policy.value))
  }

  lemma {:induction false} ChargeIsSameTerms(p: Policy, c: ChargeCall)
    ensures SameTerms(p, Charged(p, c))
  {
    hide ChargeCap;
    ChargeKeepsCap(p.sol, c.amount, c.now);
    if c.mint.Some? && c.mint.value < |p.mints| {
      ChargeKeepsCap(p.mints[c.mint.value].cap, c.amount, c.now);
    }
  }

  lemma {:induction false} SameTermsTrans(a: Account, b: Account, c: Account)
    requires SameToOwner(a, b) && SameToOwner(b, c)
    ensures SameToOwner(a, c)
  {
  }

  lemma {:induction false} StrangerStep(env: Env, w: World, ops: seq<Op>, op: Op)
    requires Refines(env, w, Absent) && RunAccount(env, w, ops).Present?
    requires Signer(op) != Some(RunAccount(env, w, ops).header.authority)
    ensures SameToOwner(RunAccount(env, w, ops), RunAccount(env, w, ops + [op]))
  {
    hide SameTerms, Charged, Perform, Refines;
    assert (ops + [op])[..|ops|] == ops;
    OnlyTheOwner(env, w, ops, op);
    var a := RunAccount(env, w, ops);
    if a.policy.Some? {
      SameTermsRefl(a.policy.value);
      if op.OpCharge? {
        ChargeIsSameTerms(a.policy.value, op.k);
      }
    }
  }

  lemma {:induction false} SameTermsRefl(p: Policy)
    ensures SameTerms(p, p)
  {
  }

  /** Whatever anyone else does, in any order, the account stays what its owner made it. */
  lemma {:induction false} StrangersChangeNothing(env: Env, w: World, ops: seq<Op>, more: seq<Op>)
    requires Refines(env, w, Absent) && RunAccount(env, w, ops).Present?
    requires forall i :: 0 <= i < |more| ==> Signer(more[i]) != Some(RunAccount(env, w, ops).header.authority)
    ensures SameToOwner(RunAccount(env, w, ops), RunAccount(env, w, ops + more))
  {
    hide SameTerms, RunAccount, Refines;
    var a := RunAccount(env, w, ops);
    if more == [] {
      assert ops + more == ops;
      if a.policy.Some? {
        SameTermsRefl(a.policy.value);
      }
    } else {
      var init, op := more[..|more| - 1], more[|more| - 1];
      StrangersChangeNothing(env, w, ops, init);
      StrangerStep(env, w, ops + init, op);
      assert ops + init + [op] == ops + more;
      SameTermsTrans(a, RunAccount(env, w, ops + init), RunAccount(env, w, ops + more));
    }
  }

  /** The bytes of a new account carry the keys and bumps it was created with, and an active policy. */
  lemma {:induction false} CreatedWithItsKeys(env: Env, w: World, ops: seq<Op>, c: SetAuthorityCall)
    requires Refines(env, w, Absent)
    ensures var now := RunWorld(env, w, ops + [OpSetAuthority(c)]);
            Succeeds(env, w, ops + [OpSetAuthority(c)]) ==>
              && Read(env.layout, now.data).Ok?
              && var (h, active) := Read(env.layout, now.data).value;
                 && active
                 && h.authority == c.authority && h.phygitalToken == c.phygitalToken && h.payer == c.payer
                 && h.bump == c.bump && h.walletBump == c.walletBump && h.version == AUTHORITY_VERSION
                 && ReadPolicy(env.layout, now.data) == Ok(Policy(NO_CAP, [], []))
  {
    hide Read, ReadPolicy, SetAuthority, Refines;
    var all := ops + [OpSetAuthority(c)];
    assert all[..|ops|] == ops;
    RunReadsBack(env, w, all);
  }

  // ---------------------------------------------------------------- lamports

  function Shortfall(held: nat, minimum: nat): nat {
    if held < minimum then minimum - held else 0
  }

  /** `payer` paid what the account was short of, `receiver` got what it no longer needed, no one else moved. */
  ghost predicate Moved(env: Env, before: Lamports, after: Lamports, payer: Pubkey, paid: nat, receiver: Pubkey, got: nat) {
    && paid <= Balance(before, payer)
    && Balance(after, env.address) == Balance(before, env.address) + paid - got
    && forall k: Pubkey :: k != env.address ==>
         Balance(after, k) == Balance(before, k) - (if k == payer then paid else 0) + (if k == receiver then got else 0)
  }

  lemma {:induction false} TopUpMoves(env: Env, m: Lamports, payer: Pubkey, minimum: nat)
    requires payer != env.address && TopUp(env, m, payer, minimum).Some?
    ensures Moved(env, m, TopUp(env, m, payer, minimum).value, payer, Shortfall(Balance(m, env.address), minimum), payer, 0)
  {
  }

  lemma {:induction false} RefundMoves(env: Env, m: Lamports, receiver: Pubkey, minimum: nat)
    requires receiver != env.address && Refund(env, m, receiver, minimum).Ok?
    ensures Balance(m, env.address) >= minimum
    ensures Moved(env, m, Refund(env, m, receiver, minimum).value, receiver, 0, receiver, Balance(m, env.address) - minimum)
  {
  }

  lemma {:induction false} SaveMoves(env: Env, w: World, c: SetPolicyCall, p: Policy)
    requires c.payer != env.address && c.receiver != env.address && |w.data| >= SOL_CAP_OFFSET
    requires Save(env, w, c, p).Ok?
    ensures var after := Save(env, w, c, p).value;
            var held, minimum := Balance(w.lamports, env.address), env.rent(|after.data|);
            var got := if |after.data| < |w.data| && held > minimum then held - minimum else 0;
            Moved(env, w.lamports, after.lamports, c.payer, Shortfall(held, minimum), c.receiver, got)
  {
    hide TopUp, Refund, Body, EncodePermissions;
    var minimum := env.rent(MINTS_OFFSET + MINT_CAP_LEN * |p.mints| + |EncodePermissions(p.permissions)|);
    TopUpMoves(env, w.lamports, c.payer, minimum);
    var paid := TopUp(env, w.lamports, c.payer, minimum).value;
    if Refund(env, paid, c.receiver, minimum).Ok? {
      RefundMoves(env, paid, c.receiver, minimum);
    }
  }

  /**
   * Who pays and who is paid: creating and saving cost the payer exactly what the account is short of
   * its minimum; a save that shrinks the account, a clear and a close refund exactly the surplus.
   */
  lemma {:induction false} LamportsMoveExactly(env: Env, w: World, a: Account, op: Op)
    requires Refines(env, w, a) && Perform(env, w, op).Ok?
    ensures var after := Perform(env, w, op).value;
            var held, minimum := Balance(w.lamports, env.address), env.rent(|after.data|);
            match op
            case OpSetAuthority(c) =>
              Moved(env, w.lamports, after.lamports, c.payer, Shortfall(held, minimum), c.payer, 0)
            case OpSetPolicy(c) =>
              var got := if |after.data| < |w.data| && held > minimum then held - minimum else 0;
              Moved(env, w.lamports, after.lamports, c.payer, Shortfall(held, minimum), c.receiver, got)
            case OpClearPolicy(c) =>
              held >= minimum && Moved(env, w.lamports, after.lamports, c.receiver, 0, c.receiver, held - minimum)
            case OpCharge(_) => after.lamports == w.lamports
            case OpClearAuthority(c) =>
              Moved(env, w.lamports, after.lamports, c.receiver, 0, c.receiver, held)
            case OpDonate(from, amount) =>
              Balance(after.lamports, env.address) == held + amount
  {
    hide TopUp, Refund, Body, EncodePermissions, Save, Moved, NewPolicy, ArgsAcceptable, Previous, ReadHeader, Read,
         EncodeHeader, Savable, Shortfall, ParseLayout, ChargeCap, Splice;
    match op
    case OpSetAuthority(c) =>
      EmptyTailLength();
      TopUpMoves(env, w.lamports, c.payer, env.rent(BASE_LEN));
    case OpSetPolicy(c) =>
      HeaderFits(env.layout, w.data);
      var previous := Previous(env.layout, w.data).value;
      SaveMoves(env, w, c, NewPolicy(c.args, previous, c.now).value);
    case OpClearPolicy(c) => RefundMoves(env, w.lamports, c.receiver, env.rent(BASE_LEN));
    case OpCharge(_) =>
    case OpClearAuthority(c) => RefundMoves(env, w.lamports, c.receiver, 0);
    case OpDonate(_, _) =>
  }
}
