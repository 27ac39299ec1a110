/**
 * The spend counters over whole lifecycles. A slot is the SOL cap or the cap of one mint; what a save
 * keeps of it depends on its own terms alone, and every window of it stays within its cap.
 */
module AuthorityCounters {
  import opened Bytes
  import opened Wrappers
  import opened PolicyCodec
  import opened SpendingLimit
  import opened AuthorityLayout
  import opened AuthorityHandlers
  import opened AuthorityLifecycle

  /** None is the SOL cap. */
  type Slot = Option<Pubkey>

  function CapIn(p: Policy, slot: Slot): Option<SpendCap> {
    match slot
    case None => Some(p.sol)
    case Some(mint) => FindMint(p.mints, mint)
  }

  function CapOf(a: Account, slot: Slot): Option<SpendCap> {
    if a.Absent? || a.policy.None? then None else CapIn(a.policy.value, slot)
  }

  function FindArg(args: seq<MintCapArg>, mint: Pubkey): Option<CapArg> {
    if args == [] then None
    else if args[0].mint == mint then Some(CapArg(args[0].cap, args[0].windowSeconds))
    else FindArg(args[1..], mint)
  }

  /** The terms a save asks for. */
  function Asked(args: PolicyArgs, slot: Slot): Option<CapArg> {
    match slot
    case None => args.sol
    case Some(mint) => FindArg(args.mints, mint)
  }

  // ---------------------------------------------------------------- what a save keeps

  /** Nothing spent, in the window that `now` falls in. */
  predicate Full(c: SpendCap, terms: CapArg, now: i64) {
    && SameCap(c, terms.cap, terms.windowSeconds)
    && terms.cap > 0 && terms.windowSeconds >= 0
    && c.remaining == c.cap
    && AlignToWindow(now, terms.windowSeconds) == Ok(c.lastReset)
  }

  /** The whole counter survives if its terms did; otherwise it starts full, and a cap not asked for is gone. */
  ghost predicate Carried(slot: Slot, before: Option<SpendCap>, asked: Option<CapArg>, after: Option<SpendCap>, now: i64) {
    match asked
    case None => after == if slot.None? then Some(NO_CAP) else None
    case Some(terms) =>
      if before.Some? && SameCap(before.value, terms.cap, terms.windowSeconds) then after == before
      else after.Some? && Full(after.value, terms, now)
  }

  lemma {:induction false} NewMintCarried(args: seq<MintCapArg>, previous: seq<MintCap>, now: i64, mint: Pubkey)
    requires NewMints(args, previous, now).Ok?
    ensures Carried(Some(mint), FindMint(previous, mint), FindArg(args, mint),
                    FindMint(NewMints(args, previous, now).value, mint), now)
  {
    if args != [] {
      var ms := NewMints(args, previous, now).value;
      assert ms[1..] == NewMints(args[1..], previous, now).value;
      if args[0].mint != mint {
        NewMintCarried(args[1..], previous, now, mint);
      }
    }
  }

  lemma {:induction false} NewPolicyCarried(args: PolicyArgs, previous: Option<Policy>, now: i64, slot: Slot)
    requires NewPolicy(args, previous, now).Ok?
    ensures var before := if previous.Some? then CapIn(previous.value, slot) else None;
            Carried(slot, before, Asked(args, slot), CapIn(NewPolicy(args, previous, now).value, slot), now)
  {
    if slot.Some? {
      NewMintCarried(args.mints, if previous.Some? then previous.value.mints else [], now, slot.value);
    }
  }

  lemma {:induction false} SaveReadsPrevious(env: Env, w: World, a: Account, c: SetPolicyCall)
    requires Refines(env, w, a) && SetPolicy(env, w, c).Ok?
    ensures a.Present? && ArgsAcceptable(env, c.args) && NewPolicy(c.args, a.policy, c.now).Ok?
  {
    hide Save, NewPolicy, ArgsAcceptable, Image, Savable, ReadHeader, Read, Previous;
    PreviousIsExpected(env, w, a.header, a.policy);
  }

  /**
   * Every successful save on a reachable account carries each counter whose own cap and window it
   * leaves alone, whatever else it adds, drops, reorders or permits; every other cap starts full.
   */
  lemma {:induction false} SaveKeepsEachCounter(env: Env, w: World, ops: seq<Op>, c: SetPolicyCall, slot: Slot)
    requires Refines(env, w, Absent)
    ensures var a, b := RunAccount(env, w, ops), RunAccount(env, w, ops + [OpSetPolicy(c)]);
            Succeeds(env, w, ops + [OpSetPolicy(c)]) ==>
              && a.Present? && b.Present? && b.policy.Some? && b.header == a.header
              && Carried(slot, CapOf(a, slot), Asked(c.args, slot), CapOf(b, slot), c.now)
  {
    hide Carried, NewPolicy;
    assert (ops + [OpSetPolicy(c)])[..|ops|] == ops;
    RunRefines(env, w, ops);
    var a := RunAccount(env, w, ops);
    if Succeeds(env, w, ops + [OpSetPolicy(c)]) {
      SaveReadsPrevious(env, RunWorld(env, w, ops), a, c);
      NewPolicyCarried(c.args, a.policy, c.now, slot);
    }
  }

  // ---------------------------------------------------------------- one slot among the mints

  ghost predicate DistinctMints(ms: seq<MintCap>) {
    forall i, j :: 0 <= i < j < |ms| ==> ms[i].mint != ms[j].mint
  }

  ghost predicate DistinctSlots(a: Account) {
    a.Present? && a.policy.Some? ==> DistinctMints(a.policy.value.mints)
  }

  lemma {:induction false} StepKeepsMintsDistinct(env: Env, w: World, a: Account, op: Op)
    requires Refines(env, w, a) && Perform(env, w, op).Ok? && DistinctSlots(a)
    ensures DistinctSlots(Expect(a, op))
  {
    hide NewPolicy, Refines, ChargeSlot, SetAuthority, SetPolicy, ClearPolicy, ClearAuthority, ChargeCap;
    if op.OpSetPolicy? {
      SaveReadsPrevious(env, w, a, op.p);
      NewPolicyTerms(op.p.args, a.policy, op.p.now);
    }
  }

  /** No reachable account lists a mint twice. */
  lemma {:induction false} RunKeepsMintsDistinct(env: Env, w: World, ops: seq<Op>)
    requires Refines(env, w, Absent)
    ensures DistinctSlots(RunAccount(env, w, ops))
  {
    hide DistinctSlots, Refines, Perform, Expect;
    assert DistinctSlots(Absent) by { NothingIsDistinct(); }
    if ops != [] {
      var before, op := ops[..|ops| - 1], ops[|ops| - 1];
      RunKeepsMintsDistinct(env, w, before);
      RunRefines(env, w, before);
      if Succeeds(env, w, ops) {
        StepKeepsMintsDistinct(env, RunWorld(env, w, before), RunAccount(env, w, before), op);
      }
    }
  }

  lemma {:induction false} NothingIsDistinct()
    ensures DistinctSlots(Absent)
  {
  }

  lemma {:induction false} FindMintUpdate(ms: seq<MintCap>, i: nat, cap: SpendCap, mint: Pubkey)
    requires i < |ms| && DistinctMints(ms)
    ensures FindMint(ms[i := ms[i].(cap := cap)], mint) == if ms[i].mint == mint then Some(cap) else FindMint(ms, mint)
  {
    var changed := ms[i := ms[i].(cap := cap)];
    if i == 0 {
      assert changed[1..] == ms[1..];
    } else {
      assert ms[0].mint != ms[i].mint;
      assert changed[1..] == ms[1..][i - 1 := ms[1..][i - 1].(cap := cap)];
      FindMintUpdate(ms[1..], i - 1, cap, mint);
    }
  }

  /** The slot a charge names, if there is one. */
  predicate Names(a: Account, c: ChargeCall, slot: Slot) {
    a.Present? && a.policy.Some? &&
    match c.mint
    case None => slot == None
    case Some(i) => i < |a.policy.value.mints| && slot == Some(a.policy.value.mints[i].mint)
  }

  /** A charge moves the slot it names by `charge_cap` and no other. */
  lemma {:induction false} ChargeMovesItsSlot(a: Account, c: ChargeCall, slot: Slot)
    requires DistinctSlots(a) && a.Present? && a.policy.Some?
    ensures Names(a, c, slot) ==>
              CapOf(a, slot).Some?
              && CapOf(Expect(a, OpCharge(c)), slot) == Some(ChargeCap(CapOf(a, slot).value, c.amount, c.now).1)
    ensures !Names(a, c, slot) ==> CapOf(Expect(a, OpCharge(c)), slot) == CapOf(a, slot)
  {
    hide ChargeCap;
    var p := a.policy.value;
    if c.mint.Some? && c.mint.value < |p.mints| {
      var i := c.mint.value;
      FindMintAt(p.mints, i);
      if slot.Some? {
        FindMintUpdate(p.mints, i, ChargeCap(p.mints[i].cap, c.amount, c.now).1, slot.value);
      }
    }
  }

  /** Where a charge looks, the bytes hold the counter of the slot it names. */
  lemma {:induction false} SlotInBytes(env: Env, w: World, a: Account, c: ChargeCall, slot: Slot)
    requires Refines(env, w, a) && DistinctSlots(a) && Names(a, c, slot)
    ensures ParseLayout(w.data).Ok?
    ensures c.mint.Some? ==> MINTS_OFFSET + MINT_CAP_LEN * (c.mint.value + 1) <= ParseLayout(w.data).value
    ensures SlotOffset(c.mint) + SPEND_CAP_LEN <= |w.data|
    ensures Some(DecodeCap(w.data[SlotOffset(c.mint)..SlotOffset(c.mint) + SPEND_CAP_LEN])) == CapOf(a, slot)
  {
    hide EncodeHeader, Body, EncodePermissions, EncodeCap, DecodeCap, EncodeMints, Splice;
    var p := a.policy.value;
    var front := env.layout.discriminator + EncodeHeader(Marked(a.header, a.policy));
    var tail := EncodePermissions(p.permissions);
    PermissionTailLength(p.permissions);
    BodyParses(front, p.sol, p.mints, tail);
    match c.mint
    case None =>
      SolSlot(front, p, tail, p.sol);
      CapRoundTrip(p.sol);
    case Some(i) =>
      FindMintAt(p.mints, i);
      MintSlotInBody(front, p, tail, i, p.mints[i].cap);
      CapRoundTrip(p.mints[i].cap);
  }

  /** On the bytes, an allowed charge succeeds iff `charge_cap` accepts it. */
  lemma {:induction false} ChargeDecides(env: Env, w: World, a: Account, c: ChargeCall, slot: Slot)
    requires Refines(env, w, a) && DistinctSlots(a) && Names(a, c, slot)
    ensures CapOf(a, slot).Some?
    ensures ChargeSlot(env, w, c).Ok? <==> c.allowed && ChargeCap(CapOf(a, slot).value, c.amount, c.now).0.Ok?
  {
    hide DecodeCap, ChargeCap, Splice, Read, ReadHeader, Image, Savable, ParseLayout, CapOf, DistinctSlots, ChargeSlot;
    PreviousIsExpected(env, w, a.header, a.policy);
    SlotInBytes(env, w, a, c, slot);
    ChargeUnfolds(env, w, c, ParseLayout(w.data).value);
  }

  lemma {:induction false} ChargeUnfolds(env: Env, w: World, c: ChargeCall, end: nat)
    requires w.live && Read(env.layout, w.data).Ok? && Read(env.layout, w.data).value.1 && ParseLayout(w.data) == Ok(end)
    requires c.mint.Some? ==> MINTS_OFFSET + MINT_CAP_LEN * (c.mint.value + 1) <= end
    requires SlotOffset(c.mint) + SPEND_CAP_LEN <= |w.data|
    ensures var cap := DecodeCap(w.data[SlotOffset(c.mint)..SlotOffset(c.mint) + SPEND_CAP_LEN]);
            ChargeSlot(env, w, c).Ok? <==> c.allowed && ChargeCap(cap, c.amount, c.now).0.Ok?
  {
    hide DecodeCap, ChargeCap, Splice, Read, ParseLayout, EncodeCap;
  }

  // ---------------------------------------------------------------- budgets over a whole run

  function Clock(op: Op): Option<i64> {
    match op
    case OpSetPolicy(c) => Some(c.now)
    case OpCharge(c) => Some(c.now)
    case _ => None
  }

  function Latest(ops: seq<Op>): i64 {
    if ops == [] then 0
    else
      var op := ops[|ops| - 1];
      if Clock(op).Some? then Clock(op).value else Latest(ops[..|ops| - 1])
  }

  /** The clock starts at the epoch or later and never goes back. */
  predicate Clocked(ops: seq<Op>) {
    ops == [] ||
    (var before, op := ops[..|ops| - 1], ops[|ops| - 1];
     Clocked(before) && (Clock(op).Some? ==> Latest(before) <= Clock(op).value))
  }

  /** What was charged to the slot since its terms last changed. */
  ghost function Paid(env: Env, w: World, ops: seq<Op>, slot: Slot): seq<Payment> {
    if ops == [] then []
    else
      var before, op := ops[..|ops| - 1], ops[|ops| - 1];
      var paid := Paid(env, w, before, slot);
      if !Succeeds(env, w, ops) then paid
      else
        match op
        case OpSetPolicy(_) =>
          var was, now := CapOf(RunAccount(env, w, before), slot), CapOf(RunAccount(env, w, ops), slot);
          if was.Some? && now.Some? && SameCap(now.value, was.value.cap, was.value.windowSeconds) then paid else []
        case OpCharge(c) =>
          if Names(RunAccount(env, w, before), c, slot) && c.amount > 0 then paid + [Payment(c.amount, c.now)] else paid
        case OpDonate(_, _) => paid
        case _ => []
  }

  /** The counter holds exactly what its window has left of the cap. */
  ghost predicate Accounts(cap: Option<SpendCap>, paid: seq<Payment>, latest: i64) {
    cap.Some? ==>
      && cap.value.windowSeconds >= 0
      && Tracks(Run(cap.value, paid), cap.value.cap, cap.value.windowSeconds, latest)
  }

  lemma {:induction false} AccountsLater(cap: Option<SpendCap>, paid: seq<Payment>, latest: i64, later: i64)
    requires Accounts(cap, paid, latest) && latest <= later
    ensures Accounts(cap, paid, later)
  {
  }

  lemma {:induction false} FullAccounts(c: SpendCap, terms: CapArg, now: i64)
    requires Full(c, terms, now) && now >= 0
    ensures Accounts(Some(c), [], now)
  {
    assert NewSpendCap(terms.cap, terms.windowSeconds, now) == Ok(c);
    RunTracks(terms.cap, terms.windowSeconds, now, []);
  }

  lemma {:induction false} NoCapAccounts(latest: i64)
    requires latest >= 0
    ensures Accounts(Some(NO_CAP), [], latest)
  {
  }

  lemma {:induction false} LatestNonnegative(ops: seq<Op>)
    requires Clocked(ops)
    ensures Latest(ops) >= 0
  {
    if ops != [] {
      LatestNonnegative(ops[..|ops| - 1]);
    }
  }

  lemma {:induction false} SaveAccounts(slot: Slot, before: Option<SpendCap>, asked: Option<CapArg>,
                                        after: Option<SpendCap>, paid: seq<Payment>, latest: i64, now: i64)
    requires Accounts(before, paid, latest) && 0 <= latest <= now && Carried(slot, before, asked, after, now)
    ensures var kept := before.Some? && after.Some? && SameCap(after.value, before.value.cap, before.value.windowSeconds);
            Accounts(after, if kept then paid else [], now)
  {
    hide Accounts;
    AccountsLater(before, paid, latest, now);
    match asked
    case None =>
      NoCapAccounts(now);
      if slot.None? && before.Some? && SameCap(NO_CAP, before.value.cap, before.value.windowSeconds) {
        EmptyCapAccounts(before.value, paid, now);
      } else if slot.Some? {
        NoneAccounts(now);
      }
    case Some(terms) =>
      if !(before.Some? && SameCap(before.value, terms.cap, terms.windowSeconds)) {
        FullAccounts(after.value, terms, now);
      }
  }

  lemma {:induction false} NoneAccounts(latest: i64)
    ensures Accounts(None, [], latest)
  {
  }

  /** Under a cap of nothing, nothing was ever paid, so any such counter is as good as a fresh one. */
  lemma {:induction false} EmptyCapAccounts(c: SpendCap, paid: seq<Payment>, now: i64)
    requires SameCap(NO_CAP, c.cap, c.windowSeconds) && Accounts(Some(c), paid, now) && now >= 0
    ensures Accounts(Some(NO_CAP), paid, now)
  {
    assert forall i :: 0 <= i < |paid| ==> Window(paid[i].now, 0) == 0;
  }

  lemma {:induction false} ChargeAccounts(cap: SpendCap, paid: seq<Payment>, latest: i64, c: ChargeCall)
    requires Accounts(Some(cap), paid, latest) && 0 <= latest <= c.now && ChargeCap(cap, c.amount, c.now).0.Ok?
    ensures Accounts(Some(ChargeCap(cap, c.amount, c.now).1),
                     if c.amount > 0 then paid + [Payment(c.amount, c.now)] else paid, c.now)
  {
    hide Tracks, Refill;
    ChargeTracks(Run(cap, paid), cap.cap, cap.windowSeconds, latest, c.amount, c.now);
    ChargeKeepsCap(cap, c.amount, c.now);
  }

  /** In every run every slot accounts exactly for what was paid from it since its terms last changed. */
  lemma {:induction false} RunAccountsForEachSlot(env: Env, w: World, ops: seq<Op>, slot: Slot)
    requires Refines(env, w, Absent) && Clocked(ops)
    ensures Accounts(CapOf(RunAccount(env, w, ops), slot), Paid(env, w, ops, slot), Latest(ops))
  {
    hide Accounts, Refines, Perform, Expect, Carried, Names, CapOf;
    if ops == [] {
      assert CapOf(Absent, slot) == None by { AbsentHasNoCap(slot); }
      NoneAccounts(0);
      return;
    }
    var before, op := ops[..|ops| - 1], ops[|ops| - 1];
    RunAccountsForEachSlot(env, w, before, slot);
    LatestNonnegative(before);
    var a, paid := RunAccount(env, w, before), Paid(env, w, before, slot);
    AccountsLater(CapOf(a, slot), paid, Latest(before), Latest(ops));
    if Succeeds(env, w, ops) {
      RunRefines(env, w, before);
      StepAccounts(env, w, before, op, slot);
    }
  }

  lemma {:induction false} AbsentHasNoCap(slot: Slot)
    ensures CapOf(Absent, slot) == None
  {
  }

  lemma {:induction false} StepAccounts(env: Env, w: World, before: seq<Op>, op: Op, slot: Slot)
    requires Refines(env, w, Absent) && Clocked(before + [op]) && Succeeds(env, w, before + [op])
    requires Accounts(CapOf(RunAccount(env, w, before), slot), Paid(env, w, before, slot), Latest(before))
    ensures Accounts(CapOf(RunAccount(env, w, before + [op]), slot), Paid(env, w, before + [op], slot), Latest(before + [op]))
  {
    hide Accounts, Refines, Carried, Names, SetAuthority, SetPolicy, ClearPolicy, ClearAuthority, ChargeSlot,
         NewPolicy, Charged;
    var ops := before + [op];
    assert ops[..|ops| - 1] == before;
    LatestNonnegative(before);
    RunRefines(env, w, before);
    var a, paid, latest := RunAccount(env, w, before), Paid(env, w, before, slot), Latest(before);
    match op
    case OpSetPolicy(c) =>
      SaveKeepsEachCounter(env, w, before, c, slot);
      SaveAccounts(slot, CapOf(a, slot), Asked(c.args, slot), CapOf(RunAccount(env, w, ops), slot), paid, latest, c.now);
    case OpCharge(c) =>
      ChargedAreActive(env, RunWorld(env, w, before), a, c);
      RunKeepsMintsDistinct(env, w, before);
      ChargeMovesItsSlot(a, c, slot);
      if Names(a, c, slot) {
        ChargeDecides(env, RunWorld(env, w, before), a, c, slot);
        ChargeAccounts(CapOf(a, slot).value, paid, latest, c);
      } else {
        AccountsLater(CapOf(a, slot), paid, latest, c.now);
      }
    case OpSetAuthority(_) =>
      NoCapAccounts(latest);
      NoneAccounts(latest);
    case OpClearPolicy(_) => NoneAccounts(latest);
    case OpClearAuthority(_) => NoneAccounts(latest);
    case OpDonate(_, _) =>
  }

  /** No aligned window of any slot, whatever the owner saves in between, is charged more than its cap. */
  lemma {:induction false} EverySlotWithinCap(env: Env, w: World, ops: seq<Op>, slot: Slot, window: int)
    requires Refines(env, w, Absent) && Clocked(ops) && CapOf(RunAccount(env, w, ops), slot).Some?
    ensures var c := CapOf(RunAccount(env, w, ops), slot).value;
            c.windowSeconds >= 0 && SpentIn(Paid(env, w, ops, slot), c.windowSeconds, window) <= c.cap
  {
    RunAccountsForEachSlot(env, w, ops, slot);
  }

  /** And an allowed charge of a slot succeeds on the bytes exactly when its window has room. */
  lemma {:induction false} NextChargeOfSlotIsExact(env: Env, w: World, ops: seq<Op>, c: ChargeCall, slot: Slot)
    requires Refines(env, w, Absent) && Clocked(ops + [OpCharge(c)])
    requires c.amount > 0 && Names(RunAccount(env, w, ops), c, slot)
    ensures CapOf(RunAccount(env, w, ops), slot).Some?
    ensures var cap := CapOf(RunAccount(env, w, ops), slot).value;
            && cap.windowSeconds >= 0
            && (Succeeds(env, w, ops + [OpCharge(c)])
                <==> c.allowed && SpentIn(Paid(env, w, ops, slot), cap.windowSeconds, Window(c.now, cap.windowSeconds))
                                  + c.amount <= cap.cap)
  {
    hide Refines, ChargeSlot, ChargeCap, Tracks, Names;
    var all := ops + [OpCharge(c)];
    assert all[..|all| - 1] == ops;
    RunRefines(env, w, ops);
    RunKeepsMintsDistinct(env, w, ops);
    RunAccountsForEachSlot(env, w, ops, slot);
    ChargeDecides(env, RunWorld(env, w, ops), RunAccount(env, w, ops), c, slot);
    var cap := CapOf(RunAccount(env, w, ops), slot).value;
    ChargeIsExact(Run(cap, Paid(env, w, ops, slot)), cap.cap, cap.windowSeconds, Latest(ops), c.amount, c.now);
  }
}
