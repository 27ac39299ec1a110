/**
 * Executing a batch: the loop that resolves, checks and issues one cross-program call after another
 * while the accounts change underneath it.
 */
module Execute {
  import opened Bytes
  import opened Wrappers
  import opened Errors
  import opened PolicyTypes
  import opened PolicyRules
  import opened CompactTypes
  import opened PolicyMatch
  import opened Compact

  datatype AccountState = AccountState(owner: Pubkey, data: Option<seq<byte>>)

  /** What calls may change: owner and data of each listed account, and of the wallet. */
  datatype World = World(accounts: nat -> AccountState, walletOwner: Pubkey, walletDataLen: nat)

  datatype Meta = Meta(key: Pubkey, isSigner: bool, isWritable: bool)

  /** A cross-program instruction as handed to `invoke_signed`. */
  datatype Cpi = Cpi(program: Pubkey, metas: seq<Meta>, data: seq<byte>)

  /** `invoke_signed`, whatever it does: None when the callee fails. */
  type Invoke = (World, Cpi) -> Option<World>

  /** `permissions` is None when the owner bypasses policy. */
  datatype Env = Env(
    programs: Programs,
    wallet: Pubkey,
    protectedKeys: set<Pubkey>,
    permissions: Option<seq<ProgramPermission>>,
    baseline: set<Pubkey>)

  function View(refs: seq<AccountRef>, w: World): (v: seq<AccountInfo>)
    ensures |v| == |refs|
    ensures forall i :: 0 <= i < |refs| ==>
              && v[i].key == refs[i].key && v[i].isSigner == refs[i].isSigner && v[i].isWritable == refs[i].isWritable
              && v[i].owner == w.accounts(i).owner && v[i].data == w.accounts(i).data
  {
    seq(|refs|, i requires 0 <= i < |refs| =>
      AccountInfo(refs[i].key, refs[i].isSigner, refs[i].isWritable, w.accounts(i).owner, w.accounts(i).data))
  }

  /** The wallet signs for itself; other privileges are passed on as they came. */
  function MetaOf(env: Env, r: AccountRef): Meta {
    Meta(r.key, r.isSigner || r.key == env.wallet, r.isWritable)
  }

  function Metas(env: Env, refs: seq<AccountRef>, indexes: seq<u8>): Result<seq<Meta>, PhygitalError> {
    if indexes == [] then Ok([])
    else
      match Metas(env, refs, indexes[..|indexes| - 1])
      case Err(e) => Err(e)
      case Ok(before) =>
        var i := indexes[|indexes| - 1];
        if i >= |refs| then Err(InvalidAccountIndex)
        else if refs[i].key in env.protectedKeys && (refs[i].isSigner || refs[i].isWritable) then
          Err(ProtectedAccountPrivilege)
        else Ok(before + [MetaOf(env, refs[i])])
  }

  function Check(env: Env, refs: seq<AccountRef>, w: World, program: Pubkey, ix: CompactInstruction):
    Result<(), PhygitalError>
  {
    match env.permissions
    case None => Ok(())
    case Some(ps) => CheckInstruction(ps, env.baseline, program, ix, View(refs, w), env.wallet)
  }

  /** Every test made on one instruction, against the accounts as they stand, and the call it becomes. */
  function Resolve(env: Env, refs: seq<AccountRef>, w: World, ix: CompactInstruction): Result<Cpi, PhygitalError> {
    if ix.programIdIndex >= |refs| then Err(InvalidAccountIndex)
    else
      var program := refs[ix.programIdIndex].key;
      if program == env.programs.self then Err(SelfReentrancyNotAllowed)
      else if program == env.programs.token then Err(PhygitalTokenCpiNotAllowed)
      else
        match Check(env, refs, w, program, ix)
        case Err(e) => Err(e)
        case Ok(_) =>
          match Metas(env, refs, ix.accountIndexes)
          case Err(e) => Err(e)
          case Ok(metas) => Ok(Cpi(program, metas, ix.data))
  }

  datatype Progress = Progress(world: World, issued: seq<Cpi>)

  /** One instruction after another, each resolved in the world its predecessors left. */
  function Run(env: Env, refs: seq<AccountRef>, invoke: Invoke, ixs: seq<CompactInstruction>, w: World):
    Result<Progress, PhygitalError>
  {
    if ixs == [] then Ok(Progress(w, []))
    else
      match Run(env, refs, invoke, ixs[..|ixs| - 1], w)
      case Err(e) => Err(e)
      case Ok(before) =>
        match Resolve(env, refs, before.world, ixs[|ixs| - 1])
        case Err(e) => Err(e)
        case Ok(cpi) =>
          match invoke(before.world, cpi)
          case None => Err(Runtime)
          case Some(after) => Ok(Progress(after, before.issued + [cpi]))
  }

  function Execution(env: Env, refs: seq<AccountRef>, invoke: Invoke, ixs: seq<CompactInstruction>, w: World):
    Result<Progress, PhygitalError>
  {
    match Run(env, refs, invoke, ixs, w)
    case Err(e) => Err(e)
    case Ok(p) =>
      if p.world.walletOwner == w.walletOwner && p.world.walletDataLen == w.walletDataLen then Ok(p)
      else Err(WalletInvariantViolated)
  }

  lemma {:induction false} RunFailsEarly(env: Env, refs: seq<AccountRef>, invoke: Invoke, ixs: seq<CompactInstruction>,
                                         w: World, k: nat)
    requires k <= |ixs| && Run(env, refs, invoke, ixs[..k], w).Err?
    ensures Run(env, refs, invoke, ixs, w) == Run(env, refs, invoke, ixs[..k], w)
    decreases |ixs|
  {
    hide Resolve;
    if k < |ixs| {
      var init := ixs[..|ixs| - 1];
      assert init[..k] == ixs[..k];
      RunFailsEarly(env, refs, invoke, init, w, k);
    } else {
      assert ixs[..k] == ixs;
    }
  }

  lemma {:induction false} MetasFailEarly(env: Env, refs: seq<AccountRef>, indexes: seq<u8>, k: nat)
    requires k <= |indexes| && Metas(env, refs, indexes[..k]).Err?
    ensures Metas(env, refs, indexes) == Metas(env, refs, indexes[..k])
    decreases |indexes|
  {
    if k < |indexes| {
      var init := indexes[..|indexes| - 1];
      assert init[..k] == indexes[..k];
      MetasFailEarly(env, refs, init, k);
    } else {
      assert indexes[..k] == indexes;
    }
  }

  /** Fill the metas buffer, which arrives holding the previous call's metas. */
  method PushMetas(env: Env, refs: seq<AccountRef>, indexes: seq<u8>, buffer: seq<Meta>)
    returns (r: Result<(), PhygitalError>, metas: seq<Meta>)
    ensures match Metas(env, refs, indexes)
            case Err(e) => r == Err(e)
            case Ok(ms) => r == Ok(()) && metas == ms
  {
    metas := buffer;
    metas := [];
    for k := 0 to |indexes|
      invariant Metas(env, refs, indexes[..k]) == Ok(metas)
    {
      var i := indexes[k];
      assert indexes[..k + 1][..k] == indexes[..k];
      if i >= |refs| {
        MetasFailEarly(env, refs, indexes, k + 1);
        return Err(InvalidAccountIndex), metas;
      }
      if refs[i].key in env.protectedKeys && (refs[i].isSigner || refs[i].isWritable) {
        MetasFailEarly(env, refs, indexes, k + 1);
        return Err(ProtectedAccountPrivilege), metas;
      }
      metas := metas + [MetaOf(env, refs[i])];
    }
    assert indexes[..|indexes|] == indexes;
    r := Ok(());
  }

  /** Resolve one instruction; the call takes the metas buffer with it. */
  method ResolveNext(env: Env, refs: seq<AccountRef>, w: World, ix: CompactInstruction, buffer: seq<Meta>)
    returns (r: Result<Cpi, PhygitalError>)
    ensures r == Resolve(env, refs, w, ix)
  {
    hide CheckInstruction, View;
    if ix.programIdIndex >= |refs| {
      return Err(InvalidAccountIndex);
    }
    var program := refs[ix.programIdIndex].key;
    if program == env.programs.self {
      return Err(SelfReentrancyNotAllowed);
    }
    if program == env.programs.token {
      return Err(PhygitalTokenCpiNotAllowed);
    }
    if env.permissions.Some? {
      var check := CheckInstruction(env.permissions.value, env.baseline, program, ix, View(refs, w), env.wallet);
      if check.Err? {
        return Err(check.error);
      }
    }
    var filled, metas := PushMetas(env, refs, ix.accountIndexes, buffer);
    if filled.Err? {
      return Err(filled.error);
    }
    r := Ok(Cpi(program, metas, ix.data));
  }

  /**
   * The loop as it runs: one metas buffer handed to each call and taken back, and each instruction's
   * data moved out of the caller's array. What it issues is what `Execution` says of the array as given.
   */
  method ExecuteCompact(env: Env, refs: seq<AccountRef>, invoke: Invoke, w: World, compact: array<CompactInstruction>)
    returns (r: Result<World, PhygitalError>, issued: seq<Cpi>)
    modifies compact
    ensures match Execution(env, refs, invoke, old(compact[..]), w)
            case Err(e) => r == Err(e)
            case Ok(p) => r == Ok(p.world) && issued == p.issued
                          && forall k :: 0 <= k < compact.Length ==> compact[k] == old(compact[k]).(data := [])
  {
    hide Resolve, Metas;
    ghost var ixs := compact[..];
    var world := w;
    var metas: seq<Meta> := [];
    issued := [];
    for i := 0 to compact.Length
      invariant forall k :: 0 <= k < i ==> compact[k] == ixs[k].(data := [])
      invariant forall k :: i <= k < compact.Length ==> compact[k] == ixs[k]
      invariant Run(env, refs, invoke, ixs[..i], w) == Ok(Progress(world, issued))
    {
      assert ixs[..i + 1][..i] == ixs[..i];
      var next := ResolveNext(env, refs, world, compact[i], metas);
      if next.Err? {
        RunFailsEarly(env, refs, invoke, ixs, w, i + 1);
        return Err(next.error), issued;
      }
      metas := [];
      compact[i] := compact[i].(data := []);
      var after := invoke(world, next.value);
      issued := issued + [next.value];
      if after.None? {
        RunFailsEarly(env, refs, invoke, ixs, w, i + 1);
        return Err(Runtime), issued;
      }
      world := after.value;
      metas := next.value.metas;
    }
    assert ixs[..compact.Length] == ixs;
    if world.walletOwner != w.walletOwner || world.walletDataLen != w.walletDataLen {
      return Err(WalletInvariantViolated), issued;
    }
    r := Ok(world);
  }

  // ---------------------------------------------------------------- what a completed run issued

  /** The call an instruction stands for, read off the account list alone. */
  function Intended(env: Env, refs: seq<AccountRef>, ix: CompactInstruction): Cpi
    requires Bounded(refs, Indexes(ix))
  {
    assert Indexes(ix)[0] == ix.programIdIndex;
    assert forall k :: 0 <= k < |ix.accountIndexes| ==> Indexes(ix)[k + 1] == ix.accountIndexes[k];
    Cpi(refs[ix.programIdIndex].key,
        seq(|ix.accountIndexes|, k requires 0 <= k < |ix.accountIndexes| => MetaOf(env, refs[ix.accountIndexes[k]])),
        ix.data)
  }

  lemma {:induction false} MetasAreIntended(env: Env, refs: seq<AccountRef>, indexes: seq<u8>)
    ensures Metas(env, refs, indexes).Ok? ==>
              && Bounded(refs, indexes)
              && |Metas(env, refs, indexes).value| == |indexes|
              && forall k :: 0 <= k < |indexes| ==>
                   && Metas(env, refs, indexes).value[k] == MetaOf(env, refs[indexes[k]])
                   && (refs[indexes[k]].key in env.protectedKeys ==>
                         !refs[indexes[k]].isSigner && !refs[indexes[k]].isWritable)
  {
    if indexes != [] {
      MetasAreIntended(env, refs, indexes[..|indexes| - 1]);
    }
  }

  /** A call is safe: right target, and protected accounts unprivileged unless the wallet is one. */
  ghost predicate SafeCall(env: Env, c: Cpi) {
    && c.program != env.programs.self
    && c.program != env.programs.token
    && forall k :: 0 <= k < |c.metas| && c.metas[k].key in env.protectedKeys ==>
         !c.metas[k].isWritable && (c.metas[k].isSigner <==> c.metas[k].key == env.wallet)
  }

  lemma {:induction false} ResolvedIsIntended(env: Env, refs: seq<AccountRef>, w: World, ix: CompactInstruction)
    requires Resolve(env, refs, w, ix).Ok?
    ensures Bounded(refs, Indexes(ix)) && Resolve(env, refs, w, ix).value == Intended(env, refs, ix)
    ensures SafeCall(env, Intended(env, refs, ix))
  {
    hide Metas, Check;
    MetasAreIntended(env, refs, ix.accountIndexes);
    assert Resolve(env, refs, w, ix).value.metas == Intended(env, refs, ix).metas;
  }

  /**
   * A completed run issued, position by position, exactly the calls its instructions stand for:
   * none was dropped, reordered or altered by the shared buffer, and every one is safe.
   */
  lemma {:induction false} RunIssuesIntended(env: Env, refs: seq<AccountRef>, invoke: Invoke,
                                             ixs: seq<CompactInstruction>, w: World)
    requires Run(env, refs, invoke, ixs, w).Ok?
    ensures var issued := Run(env, refs, invoke, ixs, w).value.issued;
            && |issued| == |ixs|
            && forall k :: 0 <= k < |ixs| ==>
                 && Bounded(refs, Indexes(ixs[k]))
                 && issued[k] == Intended(env, refs, ixs[k])
                 && SafeCall(env, issued[k])
  {
    hide Resolve, Intended, SafeCall, Bounded;
    if ixs != [] {
      var n := |ixs| - 1;
      RunIssuesIntended(env, refs, invoke, ixs[..n], w);
      var before := Run(env, refs, invoke, ixs[..n], w).value;
      ResolvedIsIntended(env, refs, before.world, ixs[n]);
    }
  }

  /** Before each call its instruction passed the permission check, with the data still in place. */
  lemma {:induction false} RunChecksEachInstruction(env: Env, refs: seq<AccountRef>, invoke: Invoke,
                                                    ixs: seq<CompactInstruction>, w: World, k: nat)
    requires Run(env, refs, invoke, ixs, w).Ok? && k < |ixs|
    ensures Run(env, refs, invoke, ixs[..k], w).Ok?
    ensures ixs[k].programIdIndex < |refs|
    ensures Check(env, refs, Run(env, refs, invoke, ixs[..k], w).value.world,
                  refs[ixs[k].programIdIndex].key, ixs[k]).Ok?
    decreases |ixs|
  {
    hide Check, Metas;
    var n := |ixs| - 1;
    if k < n {
      RunChecksEachInstruction(env, refs, invoke, ixs[..n], w, k);
      assert ixs[..n][..k] == ixs[..k];
    }
  }

  // ---------------------------------------------------------------- when a run completes

  /** The stored policy, if it applies, allows the instruction on the accounts as they stand. */
  ghost predicate Permitted(env: Env, refs: seq<AccountRef>, w: World, ix: CompactInstruction)
    requires ix.programIdIndex < |refs|
  {
    env.permissions.Some? ==>
      Allowed(env.permissions.value, env.baseline, refs[ix.programIdIndex].key, ix, View(refs, w), env.wallet)
  }

  /** Valid lists, the only ones that can be stored, name no program twice. */
  ghost predicate Listed(env: Env) {
    env.permissions.Some? ==> DistinctIds(env.permissions.value)
  }

  /** Every test an instruction has to pass before its call, with no order among them. */
  ghost predicate Issuable(env: Env, refs: seq<AccountRef>, w: World, ix: CompactInstruction) {
    && ix.programIdIndex < |refs|
    && refs[ix.programIdIndex].key != env.programs.self
    && refs[ix.programIdIndex].key != env.programs.token
    && Permitted(env, refs, w, ix)
    && Unprivileged(env, refs, ix.accountIndexes)
  }

  ghost predicate Unprivileged(env: Env, refs: seq<AccountRef>, indexes: seq<u8>) {
    forall k :: 0 <= k < |indexes| ==>
      && indexes[k] < |refs|
      && (refs[indexes[k]].key in env.protectedKeys ==> !refs[indexes[k]].isSigner && !refs[indexes[k]].isWritable)
  }

  lemma {:induction false} MetasDecide(env: Env, refs: seq<AccountRef>, indexes: seq<u8>)
    ensures Metas(env, refs, indexes).Ok? <==> Unprivileged(env, refs, indexes)
  {
    if indexes != [] {
      MetasDecide(env, refs, indexes[..|indexes| - 1]);
    }
  }

  lemma {:induction false} CheckDecides(env: Env, refs: seq<AccountRef>, w: World, ix: CompactInstruction)
    requires Listed(env) && ix.programIdIndex < |refs|
    ensures Check(env, refs, w, refs[ix.programIdIndex].key, ix).Ok? <==> Permitted(env, refs, w, ix)
  {
    hide CheckInstruction, Allowed;
    if env.permissions.Some? {
      CheckDecidesAllowed(env.permissions.value, env.baseline, refs[ix.programIdIndex].key, ix, View(refs, w), env.wallet);
    }
  }

  lemma {:induction false} ResolveDecides(env: Env, refs: seq<AccountRef>, w: World, ix: CompactInstruction)
    requires Listed(env)
    ensures Resolve(env, refs, w, ix).Ok? <==> Issuable(env, refs, w, ix)
  {
    hide Check, Metas, Permitted, Unprivileged;
    MetasDecide(env, refs, ix.accountIndexes);
    if ix.programIdIndex < |refs| {
      CheckDecides(env, refs, w, ix);
    }
  }

  /** The instruction passes every test in this world, and the call it stands for succeeds. */
  ghost predicate Issues(env: Env, refs: seq<AccountRef>, invoke: Invoke, w: World, ix: CompactInstruction) {
    Issuable(env, refs, w, ix) && Bounded(refs, Indexes(ix)) && invoke(w, Intended(env, refs, ix)).Some?
  }

  lemma {:induction false} StepDecides(env: Env, refs: seq<AccountRef>, invoke: Invoke,
                                       ixs: seq<CompactInstruction>, w: World, k: nat)
    requires Listed(env) && k < |ixs| && Run(env, refs, invoke, ixs[..k], w).Ok?
    ensures Run(env, refs, invoke, ixs[..k + 1], w).Ok?
       <==> Issues(env, refs, invoke, Run(env, refs, invoke, ixs[..k], w).value.world, ixs[k])
  {
    hide Resolve, Intended, Issuable, Bounded;
    assert ixs[..k + 1][..k] == ixs[..k];
    var before := Run(env, refs, invoke, ixs[..k], w).value.world;
    ResolveDecides(env, refs, before, ixs[k]);
    if Resolve(env, refs, before, ixs[k]).Ok? {
      ResolvedIsIntended(env, refs, before, ixs[k]);
    }
  }

  /** A run completes iff each instruction in turn issues its call in the world its predecessors left. */
  lemma {:induction false} RunCompletesIff(env: Env, refs: seq<AccountRef>, invoke: Invoke,
                                           ixs: seq<CompactInstruction>, w: World)
    requires Listed(env)
    ensures Run(env, refs, invoke, ixs, w).Ok?
       <==> forall k {:trigger ixs[..k]} :: 0 <= k < |ixs| && Run(env, refs, invoke, ixs[..k], w).Ok? ==>
              Issues(env, refs, invoke, Run(env, refs, invoke, ixs[..k], w).value.world, ixs[k])
  {
    hide Run, Issues;
    if Run(env, refs, invoke, ixs, w).Ok? {
      forall k | 0 <= k < |ixs| && Run(env, refs, invoke, ixs[..k], w).Ok?
        ensures Issues(env, refs, invoke, Run(env, refs, invoke, ixs[..k], w).value.world, ixs[k])
      {
        if Run(env, refs, invoke, ixs[..k + 1], w).Err? {
          RunFailsEarly(env, refs, invoke, ixs, w, k + 1);
        }
        StepDecides(env, refs, invoke, ixs, w, k);
      }
    } else {
      var done := LongestPrefix(env, refs, invoke, ixs, w);
      assert ixs[..|ixs|] == ixs;
      StepDecides(env, refs, invoke, ixs, w, done);
    }
  }

  lemma {:induction false} LongestPrefix(env: Env, refs: seq<AccountRef>, invoke: Invoke,
                                         ixs: seq<CompactInstruction>, w: World) returns (done: nat)
    ensures done <= |ixs| && Run(env, refs, invoke, ixs[..done], w).Ok?
    ensures done < |ixs| ==> Run(env, refs, invoke, ixs[..done + 1], w).Err?
  {
    hide Resolve;
    done := 0;
    while done < |ixs| && Run(env, refs, invoke, ixs[..done + 1], w).Ok?
      invariant done <= |ixs| && Run(env, refs, invoke, ixs[..done], w).Ok?
    {
      done := done + 1;
    }
  }

  /** Under a policy, every call of a completed run was allowed on the accounts its predecessors left. */
  lemma {:induction false} RunEnforcesPolicy(env: Env, refs: seq<AccountRef>, invoke: Invoke,
                                             ixs: seq<CompactInstruction>, w: World, k: nat)
    requires Listed(env) && Run(env, refs, invoke, ixs, w).Ok? && k < |ixs|
    ensures Run(env, refs, invoke, ixs[..k], w).Ok? && ixs[k].programIdIndex < |refs|
    ensures var before := Run(env, refs, invoke, ixs[..k], w).value.world;
            env.permissions.Some? ==>
              Allowed(env.permissions.value, env.baseline, refs[ixs[k].programIdIndex].key, ixs[k],
                      View(refs, before), env.wallet)
  {
    hide Run, Check, Allowed, View;
    RunChecksEachInstruction(env, refs, invoke, ixs, w, k);
    CheckDecides(env, refs, Run(env, refs, invoke, ixs[..k], w).value.world, ixs[k]);
  }

  /** And where the policy does not allow the next instruction, the run ends with a refusal that says why. */
  lemma {:induction false} RunStopsAtRefusal(env: Env, refs: seq<AccountRef>, invoke: Invoke,
                                             ixs: seq<CompactInstruction>, w: World, k: nat)
    requires Listed(env) && k < |ixs| && ixs[k].programIdIndex < |refs|
    requires refs[ixs[k].programIdIndex].key != env.programs.self
    requires refs[ixs[k].programIdIndex].key != env.programs.token
    requires Run(env, refs, invoke, ixs[..k], w).Ok?
    requires !Permitted(env, refs, Run(env, refs, invoke, ixs[..k], w).value.world, ixs[k])
    ensures var program := refs[ixs[k].programIdIndex].key;
            Run(env, refs, invoke, ixs, w)
            == Err(if exists rules :: ProgramPermission(program, Restricted(rules)) in env.permissions.value
                   then InstructionNotAllowed else ProgramNotAllowed)
  {
    hide Allowed, CheckInstruction, Metas;
    assert ixs[..k + 1][..k] == ixs[..k];
    var before := Run(env, refs, invoke, ixs[..k], w).value.world;
    RefusalNamesItsReason(env.permissions.value, env.baseline, refs[ixs[k].programIdIndex].key, ixs[k],
                          View(refs, before), env.wallet);
    RunFailsEarly(env, refs, invoke, ixs, w, k + 1);
  }

  /** Without a policy there is no refusal. */
  lemma {:induction false} NoPolicyNoRefusal(env: Env, refs: seq<AccountRef>, invoke: Invoke,
                                             ixs: seq<CompactInstruction>, w: World)
    requires env.permissions.None?
    ensures Run(env, refs, invoke, ixs, w) != Err(ProgramNotAllowed)
    ensures Run(env, refs, invoke, ixs, w) != Err(InstructionNotAllowed)
  {
    hide Metas;
    if ixs != [] {
      NoPolicyNoRefusal(env, refs, invoke, ixs[..|ixs| - 1], w);
      MetasErrors(env, refs, ixs[|ixs| - 1].accountIndexes);
    }
  }

  lemma {:induction false} MetasErrors(env: Env, refs: seq<AccountRef>, indexes: seq<u8>)
    ensures Metas(env, refs, indexes).Err? ==>
              Metas(env, refs, indexes).error in {InvalidAccountIndex, ProtectedAccountPrivilege}
  {
    if indexes != [] {
      MetasErrors(env, refs, indexes[..|indexes| - 1]);
    }
  }

  /** A successful execution left the wallet's owner and size alone; one that did not is refused. */
  lemma {:induction false} ExecutionKeepsWallet(env: Env, refs: seq<AccountRef>, invoke: Invoke,
                                                ixs: seq<CompactInstruction>, w: World)
    requires Run(env, refs, invoke, ixs, w).Ok?
    ensures var p := Run(env, refs, invoke, ixs, w).value;
            var kept := p.world.walletOwner == w.walletOwner && p.world.walletDataLen == w.walletDataLen;
            Execution(env, refs, invoke, ixs, w) == if kept then Ok(p) else Err(WalletInvariantViolated)
  {
  }

  /** No call carries a privilege its account did not come with, but for the wallet's own signature. */
  lemma {:induction false} PrivilegesDoNotGrow(env: Env, refs: seq<AccountRef>, invoke: Invoke,
                                               ixs: seq<CompactInstruction>, w: World, k: nat, j: nat)
    requires Run(env, refs, invoke, ixs, w).Ok? && k < |ixs| && j < |ixs[k].accountIndexes|
    ensures var issued := Run(env, refs, invoke, ixs, w).value.issued;
            && |issued| == |ixs| && |issued[k].metas| == |ixs[k].accountIndexes| && ixs[k].accountIndexes[j] < |refs|
            && var meta, account := issued[k].metas[j], refs[ixs[k].accountIndexes[j]];
               && meta.key == account.key
               && meta.isWritable == account.isWritable
               && (meta.isSigner <==> account.isSigner || account.key == env.wallet)
  {
    hide Run, Intended;
    RunIssuesIntended(env, refs, invoke, ixs, w);
    IntendedMeta(env, refs, ixs[k], j);
  }

  /** Protected accounts get no privilege at all, exactly when the wallet is not used as one of them. */
  lemma {:induction false} ProtectedGetNothing(env: Env, refs: seq<AccountRef>, invoke: Invoke,
                                               ixs: seq<CompactInstruction>, w: World)
    requires Run(env, refs, invoke, ixs, w).Ok?
    ensures (forall c :: c in Run(env, refs, invoke, ixs, w).value.issued ==>
               forall m :: m in c.metas && m.key in env.protectedKeys ==> !m.isSigner && !m.isWritable)
       <==> !(env.wallet in env.protectedKeys && Mentions(refs, ixs, env.wallet))
  {
    hide Run, Intended;
    RunIssuesIntended(env, refs, invoke, ixs, w);
    var issued := Run(env, refs, invoke, ixs, w).value.issued;
    if env.wallet in env.protectedKeys && Mentions(refs, ixs, env.wallet) {
      var k, j :| 0 <= k < |ixs| && 0 <= j < |ixs[k].accountIndexes|
                  && ixs[k].accountIndexes[j] < |refs| && refs[ixs[k].accountIndexes[j]].key == env.wallet;
      IntendedMeta(env, refs, ixs[k], j);
      assert issued[k] in issued && issued[k].metas[j] in issued[k].metas;
    } else {
      forall c, m | c in issued && m in c.metas && m.key in env.protectedKeys
        ensures !m.isSigner && !m.isWritable
      {
        var k :| 0 <= k < |issued| && issued[k] == c;
        var j :| 0 <= j < |c.metas| && c.metas[j] == m;
        IntendedMeta(env, refs, ixs[k], j);
      }
    }
  }

  /** Does some instruction list an account with this key? */
  ghost predicate Mentions(refs: seq<AccountRef>, ixs: seq<CompactInstruction>, key: Pubkey) {
    exists k, j :: 0 <= k < |ixs| && 0 <= j < |ixs[k].accountIndexes|
                   && ixs[k].accountIndexes[j] < |refs| && refs[ixs[k].accountIndexes[j]].key == key
  }

  lemma {:induction false} IntendedMeta(env: Env, refs: seq<AccountRef>, ix: CompactInstruction, j: nat)
    requires Bounded(refs, Indexes(ix)) && (j < |ix.accountIndexes| || j < |Intended(env, refs, ix).metas|)
    ensures |Intended(env, refs, ix).metas| == |ix.accountIndexes|
    ensures Indexes(ix)[j + 1] == ix.accountIndexes[j] && ix.accountIndexes[j] < |refs|
    ensures Intended(env, refs, ix).metas[j] == MetaOf(env, refs[ix.accountIndexes[j]])
  {
    assert Indexes(ix)[j + 1] == ix.accountIndexes[j];
  }

  // ---------------------------------------------------------------- index errors

  lemma {:induction false} BoundedPart(refs: seq<AccountRef>, ixs: seq<CompactInstruction>, k: nat)
    requires Bounded(refs, AllIndexes(ixs)) && k < |ixs|
    ensures Bounded(refs, Indexes(ixs[k]))
  {
    forall i | 0 <= i < |Indexes(ixs[k])|
      ensures Indexes(ixs[k])[i] < |refs|
    {
      if Indexes(ixs[k])[i] >= |refs| {
        OutOfRange(refs, ixs, k, i);
      }
    }
  }

  lemma {:induction false} MetasInRange(env: Env, refs: seq<AccountRef>, indexes: seq<u8>)
    requires Bounded(refs, indexes)
    ensures Metas(env, refs, indexes) != Err(InvalidAccountIndex)
  {
    if indexes != [] {
      MetasInRange(env, refs, indexes[..|indexes| - 1]);
    }
  }

  /** Once the account hash was computed, execution never meets an index out of range. */
  lemma {:induction false} HashedIndexesAreInRange(env: Env, refs: seq<AccountRef>, invoke: Invoke,
                                                   ixs: seq<CompactInstruction>, w: World)
    requires HashInput(refs, ixs).Ok?
    ensures Execution(env, refs, invoke, ixs, w) != Err(InvalidAccountIndex)
  {
    RunInRange(env, refs, invoke, ixs, w, |ixs|);
    assert ixs[..|ixs|] == ixs;
  }

  lemma {:induction false} RunInRange(env: Env, refs: seq<AccountRef>, invoke: Invoke,
                                      ixs: seq<CompactInstruction>, w: World, k: nat)
    requires HashInput(refs, ixs).Ok? && k <= |ixs|
    ensures Run(env, refs, invoke, ixs[..k], w) != Err(InvalidAccountIndex)
  {
    hide Metas, CheckInstruction;
    if k > 0 {
      RunInRange(env, refs, invoke, ixs, w, k - 1);
      assert ixs[..k][..k - 1] == ixs[..k - 1];
      var ix := ixs[k - 1];
      BoundedPart(refs, ixs, k - 1);
      assert Indexes(ix)[0] == ix.programIdIndex;
      assert Bounded(refs, ix.accountIndexes) by {
        assert forall j :: 0 <= j < |ix.accountIndexes| ==> Indexes(ix)[j + 1] == ix.accountIndexes[j];
      }
      MetasInRange(env, refs, ix.accountIndexes);
      var before := Run(env, refs, invoke, ixs[..k - 1], w);
      if before.Ok? {
        CheckHasNoIndexError(env, refs, before.value.world, refs[ix.programIdIndex].key, ix);
      }
    }
  }

  /** And a valid rule that pins both lengths is decided on places that exist, account lookups included. */
  lemma {:induction false} HashedPinnedRuleDecides(refs: seq<AccountRef>, ixs: seq<CompactInstruction>, k: nat,
                                                   r: InstructionRule, w: World, wallet: Pubkey)
    requires HashInput(refs, ixs).Ok? && k < |ixs|
    requires ValidRule(r) && r.dataLength.Some? && r.accountCount.Some?
    ensures var ix, accounts := ixs[k], View(refs, w);
            var pinned := r.dataLength.value == |ix.data| && r.accountCount.value == |ix.accountIndexes|;
            && (pinned ==> InReach(r, ix, accounts))
            && (RuleMatches(r, ix, accounts, wallet) <==> pinned && RuleHolds(r, ix, accounts, wallet))
  {
    hide RuleMatches, RuleHolds, InReach, ValidRule;
    var ix := ixs[k];
    BoundedPart(refs, ixs, k);
    forall i | 0 <= i < |ix.accountIndexes|
      ensures ix.accountIndexes[i] < |View(refs, w)|
    {
      assert Indexes(ix)[i + 1] == ix.accountIndexes[i];
    }
    PinnedRuleDecides(r, ix, View(refs, w), wallet);
  }

  lemma {:induction false} CheckHasNoIndexError(env: Env, refs: seq<AccountRef>, w: World, program: Pubkey,
                                                ix: CompactInstruction)
    ensures Check(env, refs, w, program, ix) != Err(InvalidAccountIndex)
  {
  }
}
