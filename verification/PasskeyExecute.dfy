/**
 * The passkey handler around an execution, and the display of a batch to its owner: what was signed,
 * and what was shown, is what is issued.
 */
module PasskeyExecute {
  import opened Bytes
  import opened Wrappers
  import opened Errors
  import opened CompactTypes
  import opened Compact
  import opened Execute

  /** The three parts the passkey signs over; the first two hash inputs stand for their digests. */
  datatype Challenge = Challenge(slotHash: seq<byte>, instructions: seq<byte>, accounts: seq<byte>)

  function ChallengeOf(refs: seq<AccountRef>, ixs: seq<CompactInstruction>, slotHash: seq<byte>):
    Result<Challenge, PhygitalError>
  {
    match Packed(ixs)
    case Err(e) => Err(e)
    case Ok(packed) =>
      match HashInput(refs, ixs)
      case Err(e) => Err(e)
      case Ok(accounts) => Ok(Challenge(slotHash, packed, accounts))
  }

  /**
   * The handler: hash, verify the signature, execute, and under a policy charge what was spent.
   * `charge` stands for the balance comparison that feeds the spend caps.
   */
  method Handler(env: Env, refs: seq<AccountRef>, invoke: Invoke, verify: Challenge -> bool, charge: World -> bool,
                 slotHash: seq<byte>, w: World, compact: array<CompactInstruction>)
    returns (r: Result<World, PhygitalError>, issued: seq<Cpi>)
    modifies compact
    ensures var ixs := old(compact[..]);
            var challenge := ChallengeOf(refs, ixs, slotHash);
            if challenge.Err? then r == Err(challenge.error) && issued == []
            else if !verify(challenge.value) then r == Err(Runtime) && issued == []
            else
              && r != Err(InvalidAccountIndex)
              && match Execution(env, refs, invoke, ixs, w)
                 case Err(e) => r == Err(e)
                 case Ok(p) =>
                   && issued == p.issued
                   && r == if env.permissions.Some? && !charge(p.world) then Err(SpendLimitExceeded) else Ok(p.world)
  {
    hide Packed, HashInput, Execution;
    ghost var ixs := compact[..];
    issued := [];
    var packed := Pack(compact[..]);
    if packed.Err? {
      return Err(packed.error), [];
    }
    var accounts := HashReferencedAccounts(refs, compact[..]);
    if accounts.Err? {
      return Err(accounts.error), [];
    }
    if !verify(Challenge(slotHash, packed.value, accounts.value)) {
      return Err(Runtime), [];
    }
    HashedIndexesAreInRange(env, refs, invoke, ixs, w);
    r, issued := ExecuteCompact(env, refs, invoke, w, compact);
    if r.Ok? && env.permissions.Some? && !charge(r.value) {
      r := Err(SpendLimitExceeded);
    }
  }

  // ---------------------------------------------------------------- the signature pins the calls

  lemma {:induction false} RefEntryInjective(a: AccountRef, b: AccountRef)
    requires RefEntry(a) == RefEntry(b)
    ensures a == b
  {
    assert RefEntry(a)[..32] == a.key && RefEntry(b)[..32] == b.key;
    assert RefEntry(a)[32] == PrivilegeByte(a.isSigner, a.isWritable);
    assert RefEntry(b)[32] == PrivilegeByte(b.isSigner, b.isWritable);
  }

  lemma {:induction false} EntriesInjective(a: seq<AccountRef>, b: seq<AccountRef>, indexes: seq<u8>)
    requires Bounded(a, indexes) && Bounded(b, indexes) && Entries(a, indexes) == Entries(b, indexes)
    ensures forall k :: 0 <= k < |indexes| ==> a[indexes[k]] == b[indexes[k]]
  {
    if indexes != [] {
      var n := |indexes| - 1;
      var x, y := Entries(a, indexes[..n]), Entries(b, indexes[..n]);
      EntriesLength(a, indexes[..n]);
      EntriesLength(b, indexes[..n]);
      SplitEqual(x, RefEntry(a[indexes[n]]), y, RefEntry(b[indexes[n]]));
      RefEntryInjective(a[indexes[n]], b[indexes[n]]);
      EntriesInjective(a, b, indexes[..n]);
    }
  }

  lemma {:induction false} PartOfAll(ixs: seq<CompactInstruction>, k: nat, i: nat) returns (at: nat)
    requires k < |ixs| && i < |Indexes(ixs[k])|
    ensures at < |AllIndexes(ixs)| && AllIndexes(ixs)[at] == Indexes(ixs[k])[i]
    decreases |ixs|
  {
    var init := ixs[..|ixs| - 1];
    if k == |ixs| - 1 {
      at := |AllIndexes(init)| + i;
    } else {
      at := PartOfAll(init, k, i);
    }
  }

  lemma {:induction false} SameReferencesSameCall(a: Env, b: Env, refsA: seq<AccountRef>, refsB: seq<AccountRef>,
                                                  ix: CompactInstruction)
    requires a.wallet == b.wallet && Bounded(refsA, Indexes(ix)) && Bounded(refsB, Indexes(ix))
    requires forall i :: 0 <= i < |Indexes(ix)| ==> refsA[Indexes(ix)[i]] == refsB[Indexes(ix)[i]]
    ensures Intended(a, refsA, ix) == Intended(b, refsB, ix)
  {
    assert Indexes(ix)[0] == ix.programIdIndex;
    forall k | 0 <= k < |ix.accountIndexes|
      ensures Intended(a, refsA, ix).metas[k] == Intended(b, refsB, ix).metas[k]
    {
      assert Indexes(ix)[k + 1] == ix.accountIndexes[k];
      IntendedMeta(a, refsA, ix, k);
      IntendedMeta(b, refsB, ix, k);
    }
    if ix.accountIndexes != [] {
      IntendedMeta(a, refsA, ix, 0);
      IntendedMeta(b, refsB, ix, 0);
    }
    assert Intended(a, refsA, ix).metas == Intended(b, refsB, ix).metas;
  }

  /**
   * Two completed executions for one wallet whose hash inputs agree issue the same calls, program by
   * program, meta by meta and byte by byte, even with different account lists or accounts.
   */
  lemma {:induction false} EqualChallengesIssueEqualCalls(
      a: Env, b: Env, refsA: seq<AccountRef>, refsB: seq<AccountRef>, invokeA: Invoke, invokeB: Invoke,
      ixsA: seq<CompactInstruction>, ixsB: seq<CompactInstruction>, wA: World, wB: World, slotA: seq<byte>, slotB: seq<byte>)
    requires a.wallet == b.wallet
    requires ChallengeOf(refsA, ixsA, slotA).Ok? && ChallengeOf(refsB, ixsB, slotB).Ok?
    requires ChallengeOf(refsA, ixsA, slotA).value.instructions == ChallengeOf(refsB, ixsB, slotB).value.instructions
    requires ChallengeOf(refsA, ixsA, slotA).value.accounts == ChallengeOf(refsB, ixsB, slotB).value.accounts
    requires Run(a, refsA, invokeA, ixsA, wA).Ok? && Run(b, refsB, invokeB, ixsB, wB).Ok?
    ensures Run(a, refsA, invokeA, ixsA, wA).value.issued == Run(b, refsB, invokeB, ixsB, wB).value.issued
    ensures ChallengeOf(refsA, ixsA, slotA) == ChallengeOf(refsB, ixsB, slotB) ==> slotA == slotB
  {
    hide Run, Intended, Packed, Entries;
    PackedInjective(ixsA, ixsB);
    EntriesInjective(refsA, refsB, AllIndexes(ixsA));
    RunIssuesIntended(a, refsA, invokeA, ixsA, wA);
    RunIssuesIntended(b, refsB, invokeB, ixsB, wB);
    forall k | 0 <= k < |ixsA|
      ensures Intended(a, refsA, ixsA[k]) == Intended(b, refsB, ixsB[k])
    {
      forall i | 0 <= i < |Indexes(ixsA[k])|
        ensures refsA[Indexes(ixsA[k])[i]] == refsB[Indexes(ixsA[k])[i]]
      {
        var at := PartOfAll(ixsA, k, i);
      }
      SameReferencesSameCall(a, b, refsA, refsB, ixsA[k]);
    }
  }

  // ---------------------------------------------------------------- what the owner is shown

  /** One line of the confirmation screen; titles are rendered from these fields. */
  datatype Summary = Summary(program: Pubkey, accounts: seq<Pubkey>, dataLength: nat)

  predicate Shows(s: Summary, refs: seq<AccountRef>, ix: CompactInstruction) {
    && ix.programIdIndex < |refs| && s.program == refs[ix.programIdIndex].key
    && |s.accounts| == |ix.accountIndexes|
    && (forall k :: 0 <= k < |s.accounts| ==>
          ix.accountIndexes[k] < |refs| && s.accounts[k] == refs[ix.accountIndexes[k]].key)
    && s.dataLength == |ix.data|
  }

  /** The signer's decompilation of a batch: None is the thrown "index out of range". */
  method SummarizeInner(ixs: seq<CompactInstruction>, refs: seq<AccountRef>) returns (out: Option<seq<Summary>>)
    ensures out.Some? <==> forall k :: 0 <= k < |ixs| ==> Bounded(refs, Indexes(ixs[k]))
    ensures out.Some? ==> |out.value| == |ixs| && forall k :: 0 <= k < |ixs| ==> Shows(out.value[k], refs, ixs[k])
  {
    var shown: seq<Summary> := [];
    for k := 0 to |ixs|
      invariant |shown| == k
      invariant forall j :: 0 <= j < k ==> Bounded(refs, Indexes(ixs[j])) && Shows(shown[j], refs, ixs[j])
    {
      var ix := ixs[k];
      assert Indexes(ix)[0] == ix.programIdIndex;
      if ix.programIdIndex >= |refs| {
        return None;
      }
      var accounts: seq<Pubkey> := [];
      for i := 0 to |ix.accountIndexes|
        invariant |accounts| == i
        invariant forall j :: 0 <= j < i ==> ix.accountIndexes[j] < |refs| && accounts[j] == refs[ix.accountIndexes[j]].key
      {
        assert Indexes(ix)[i + 1] == ix.accountIndexes[i];
        if ix.accountIndexes[i] >= |refs| {
          return None;
        }
        accounts := accounts + [refs[ix.accountIndexes[i]].key];
      }
      assert Bounded(refs, Indexes(ix)) by {
        forall j | 0 <= j < |Indexes(ix)|
          ensures Indexes(ix)[j] < |refs|
        {
          if j > 0 {
            assert Indexes(ix)[j] == ix.accountIndexes[j - 1];
          }
        }
      }
      shown := shown + [Summary(refs[ix.programIdIndex].key, accounts, |ix.data|)];
    }
    out := Some(shown);
  }

  /** A call and a line that agree on program, account keys and data length. */
  predicate Agrees(s: Summary, c: Cpi) {
    && s.program == c.program
    && |s.accounts| == |c.metas|
    && (forall k :: 0 <= k < |c.metas| ==> s.accounts[k] == c.metas[k].key)
    && s.dataLength == |c.data|
  }

  /** Whenever a batch completes, showing it succeeds, and any showing agrees with the calls issued. */
  lemma {:induction false} ShownIsIssued(env: Env, refs: seq<AccountRef>, invoke: Invoke,
                                         ixs: seq<CompactInstruction>, w: World)
    requires Run(env, refs, invoke, ixs, w).Ok?
    ensures var issued := Run(env, refs, invoke, ixs, w).value.issued;
            && |issued| == |ixs|
            && forall k :: 0 <= k < |ixs| ==>
              && Bounded(refs, Indexes(ixs[k]))
              && forall s :: Shows(s, refs, ixs[k]) ==> Agrees(s, issued[k])
  {
    hide Run, Intended;
    RunIssuesIntended(env, refs, invoke, ixs, w);
    forall k, s | 0 <= k < |ixs| && Shows(s, refs, ixs[k])
      ensures Agrees(s, Intended(env, refs, ixs[k]))
    {
      ShowsAgrees(env, refs, ixs[k], s);
    }
  }

  lemma {:induction false} ShowsAgrees(env: Env, refs: seq<AccountRef>, ix: CompactInstruction, s: Summary)
    requires Bounded(refs, Indexes(ix)) && Shows(s, refs, ix)
    ensures Agrees(s, Intended(env, refs, ix))
  {
  }
}
