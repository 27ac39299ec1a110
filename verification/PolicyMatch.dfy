/** Matching an instruction against a permission list. */
module PolicyMatch {
  import opened Bytes
  import opened Wrappers
  import opened Errors
  import opened PolicyTypes
  import opened PolicyRules
  import opened CompactTypes

  function Zeros(n: nat): (z: seq<byte>)
    ensures |z| == n
  {
    seq(n, _ => 0)
  }

  function Compare(c: Comparison, actual: nat, value: nat): bool {
    match c
    case Equal => actual == value
    case NotEqual => actual != value
    case LessThan => actual < value
    case LessThanOrEqual => actual <= value
    case GreaterThan => actual > value
    case GreaterThanOrEqual => actual >= value
  }

  /** Does `data` hold, at the constraint's offset, what the constraint asks for? */
  predicate ConstraintMatches(c: DataConstraint, data: seq<byte>) {
    var end := c.offset + c.Width();
    end <= |data| &&
    var bytes := data[c.offset..end];
    match c.test
    case BytesEqual(expected) => bytes == expected
    case Unsigned(_, comparison, value) =>
      Compare(comparison, LeValue(bytes + Zeros(8 - |bytes|)), value)
  }

  predicate KeyMatches(k: AccountKeyConstraint, key: Pubkey, wallet: Pubkey) {
    match k
    case Any => true
    case Address(required) => key == required
    case Wallet => key == wallet
  }

  predicate AccountMatches(a: AccountConstraint, ix: CompactInstruction, remaining: seq<AccountInfo>, wallet: Pubkey) {
    a.index < |ix.accountIndexes| &&
    ix.accountIndexes[a.index] < |remaining| &&
    var account := remaining[ix.accountIndexes[a.index]];
    && KeyMatches(a.key, account.key, wallet)
    && (a.owner.Some? ==> account.owner == a.owner.value)
    && (a.isSigner.Some? ==> a.isSigner.value == (account.isSigner || account.key == wallet))
    && (a.isWritable.Some? ==> a.isWritable.value == account.isWritable)
    && (a.data != [] ==>
          && account.data.Some?
          && forall c :: c in a.data ==> ConstraintMatches(c, account.data.value))
  }

  predicate RuleMatches(r: InstructionRule, ix: CompactInstruction, remaining: seq<AccountInfo>, wallet: Pubkey) {
    && r.selector <= ix.data
    && (r.dataLength.Some? ==> r.dataLength.value == |ix.data|)
    && (r.accountCount.Some? ==> r.accountCount.value == |ix.accountIndexes|)
    && (forall c :: c in r.arguments ==> ConstraintMatches(c, ix.data))
    && (forall a :: a in r.accounts ==> AccountMatches(a, ix, remaining, wallet))
  }

  /** The first permission that names `program`. */
  function Find(ps: seq<ProgramPermission>, program: Pubkey): Option<ProgramAccess> {
    if ps == [] then None
    else if ps[0].programId == program then Some(ps[0].access)
    else Find(ps[1..], program)
  }

  function CheckInstruction(ps: seq<ProgramPermission>, baseline: set<Pubkey>, program: Pubkey,
                            ix: CompactInstruction, remaining: seq<AccountInfo>, wallet: Pubkey): Result<(), PhygitalError>
  {
    match Find(ps, program)
    case Some(Denied) => Err(ProgramNotAllowed)
    case Some(AllInstructions) => Ok(())
    case Some(Restricted(rules)) =>
      if exists r :: r in rules && RuleMatches(r, ix, remaining, wallet) then Ok(()) else Err(InstructionNotAllowed)
    case None => if program in baseline then Ok(()) else Err(ProgramNotAllowed)
  }

  // ---------------------------------------------------------------- unsigned predicates

  lemma {:induction false} PaddingKeepsValue(b: seq<byte>, n: nat)
    ensures LeValue(b + Zeros(n)) == LeValue(b)
  {
    if b != [] {
      assert (b + Zeros(n))[1..] == b[1..] + Zeros(n);
      PaddingKeepsValue(b[1..], n);
    } else if n > 0 {
      assert b + Zeros(n) == Zeros(n);
      assert Zeros(n)[1..] == [] + Zeros(n - 1);
      PaddingKeepsValue([], n - 1);
    } else {
      assert b + Zeros(n) == b;
    }
  }

  /** An unsigned predicate needs its field to lie in the data, and then compares the integer there. */
  lemma {:induction false} UnsignedDecidesInteger(c: DataConstraint, data: seq<byte>)
    requires c.test.Unsigned?
    ensures var end := c.offset + c.test.width.Bytes();
            if end > |data| then !ConstraintMatches(c, data)
            else
              var n := LeValue(data[c.offset..end]);
              match c.test.comparison
              case Equal => ConstraintMatches(c, data) <==> n == c.test.value
              case NotEqual => ConstraintMatches(c, data) <==> n != c.test.value
              case LessThan => ConstraintMatches(c, data) <==> n < c.test.value
              case LessThanOrEqual => ConstraintMatches(c, data) <==> n <= c.test.value
              case GreaterThan => ConstraintMatches(c, data) <==> n > c.test.value
              case GreaterThanOrEqual => ConstraintMatches(c, data) <==> n >= c.test.value
  {
    var end := c.offset + c.Width();
    if end <= |data| {
      var bytes := data[c.offset..end];
      PaddingKeepsValue(bytes, 8 - |bytes|);
    }
  }

  /** The values the validator lets through for each width are those the width can hold. */
  lemma {:induction false} ValidValues(c: DataConstraint)
    requires c.test.Unsigned?
    ensures ValidConstraint(c) <==>
            match c.test.width
            case U8 => c.test.value < 0x100
            case U16 => c.test.value < 0x1_0000
            case U32 => c.test.value < 0x1_0000_0000
            case U64 => true
  {
    Pow256Values();
  }

  /** The value a valid unsigned predicate names is one the field can hold, so equality can succeed. */
  lemma {:induction false} ValidEqualityIsSatisfiable(c: DataConstraint, before: seq<byte>, after: seq<byte>)
    requires ValidConstraint(c) && c.test.Unsigned? && c.test.comparison == Equal && |before| == c.offset
    ensures ConstraintMatches(c, before + Le(c.test.value, c.test.width.Bytes()) + after)
  {
    var w := c.test.width.Bytes();
    var data := before + Le(c.test.value, w) + after;
    assert data[c.offset..c.offset + w] == Le(c.test.value, w);
    LeRoundTrip(c.test.value, w);
    UnsignedDecidesInteger(c, data);
  }

  // ---------------------------------------------------------------- pinned rules

  /** The test an argument makes once its range is known to lie inside the data. */
  predicate ArgumentHolds(c: DataConstraint, data: seq<byte>)
    requires c.offset + c.Width() <= |data|
  {
    var bytes := data[c.offset..c.offset + c.Width()];
    match c.test
    case BytesEqual(expected) => bytes == expected
    case Unsigned(_, comparison, value) => Compare(comparison, LeValue(bytes), value)
  }

  /**
   * A valid rule that pins the data length decides every argument on bytes that exist; one that
   * pins the account count never looks past the instruction's own account list.
   */
  lemma {:induction false} PinnedRuleStaysInRange(r: InstructionRule, ix: CompactInstruction,
                                                  remaining: seq<AccountInfo>, wallet: Pubkey)
    requires ValidRule(r)
    ensures r.dataLength == Some(|ix.data|) ==>
              forall c :: c in r.arguments ==>
                c.offset + c.Width() <= |ix.data| && (ConstraintMatches(c, ix.data) <==> ArgumentHolds(c, ix.data))
    ensures r.accountCount == Some(|ix.accountIndexes|) ==>
              forall a :: a in r.accounts ==> a.index < |ix.accountIndexes|
  {
    forall c | c in r.arguments && r.dataLength == Some(|ix.data|)
      ensures c.offset + c.Width() <= |ix.data| && (ConstraintMatches(c, ix.data) <==> ArgumentHolds(c, ix.data))
    {
      assert ValidArgument(r, c);
      if c.test.Unsigned? {
        UnsignedDecidesInteger(c, ix.data);
      }
    }
    forall a | a in r.accounts && r.accountCount == Some(|ix.accountIndexes|)
      ensures a.index < |ix.accountIndexes|
    {
      assert ValidAccount(r, a);
    }
  }

  predicate AccountHolds(a: AccountConstraint, account: AccountInfo, wallet: Pubkey) {
    && (a.key.Address? ==> account.key == a.key.key)
    && (a.key.Wallet? ==> account.key == wallet)
    && (a.owner.Some? ==> account.owner == a.owner.value)
    && (a.isSigner.Some? ==> a.isSigner.value == (account.isSigner || account.key == wallet))
    && (a.isWritable.Some? ==> a.isWritable.value == account.isWritable)
    && (a.data != [] ==> account.data.Some? && forall c :: c in a.data ==> ConstraintMatches(c, account.data.value))
  }

  /** Every place a rule looks at in the instruction and its accounts is there. */
  ghost predicate InReach(r: InstructionRule, ix: CompactInstruction, remaining: seq<AccountInfo>) {
    && (forall c :: c in r.arguments ==> c.offset + c.Width() <= |ix.data|)
    && (forall a :: a in r.accounts ==> a.index < |ix.accountIndexes| && ix.accountIndexes[a.index] < |remaining|)
  }

  /** The rule's tests with no regard to ranges. */
  ghost predicate RuleHolds(r: InstructionRule, ix: CompactInstruction, remaining: seq<AccountInfo>, wallet: Pubkey)
    requires InReach(r, ix, remaining)
  {
    && r.selector <= ix.data
    && (forall c :: c in r.arguments ==> ArgumentHolds(c, ix.data))
    && (forall a :: a in r.accounts ==> AccountHolds(a, remaining[ix.accountIndexes[a.index]], wallet))
  }

  lemma {:induction false} ConstraintDecides(c: DataConstraint, data: seq<byte>)
    ensures ConstraintMatches(c, data) <==> c.offset + c.Width() <= |data| && ArgumentHolds(c, data)
  {
    if c.test.Unsigned? {
      UnsignedDecidesInteger(c, data);
    }
  }

  /** Any rule matches iff its pins agree, every place it looks at is there, and its tests hold. */
  lemma {:induction false} RuleDecides(r: InstructionRule, ix: CompactInstruction,
                                       remaining: seq<AccountInfo>, wallet: Pubkey)
    ensures RuleMatches(r, ix, remaining, wallet)
       <==> && (r.dataLength.Some? ==> r.dataLength.value == |ix.data|)
            && (r.accountCount.Some? ==> r.accountCount.value == |ix.accountIndexes|)
            && InReach(r, ix, remaining) && RuleHolds(r, ix, remaining, wallet)
  {
    hide ConstraintMatches, ArgumentHolds;
    forall c | c in r.arguments
      ensures ConstraintMatches(c, ix.data) <==> c.offset + c.Width() <= |ix.data| && ArgumentHolds(c, ix.data)
    {
      ConstraintDecides(c, ix.data);
    }
  }

  /**
   * A valid rule that pins both lengths, on an instruction whose account indexes are in range: it
   * matches iff the lengths are the pinned ones and its tests hold, none of them out of reach.
   */
  lemma {:induction false} PinnedRuleDecides(r: InstructionRule, ix: CompactInstruction,
                                             remaining: seq<AccountInfo>, wallet: Pubkey)
    requires ValidRule(r) && r.dataLength.Some? && r.accountCount.Some?
    requires forall i :: 0 <= i < |ix.accountIndexes| ==> ix.accountIndexes[i] < |remaining|
    ensures var pinned := r.dataLength.value == |ix.data| && r.accountCount.value == |ix.accountIndexes|;
            && (pinned ==> InReach(r, ix, remaining))
            && (RuleMatches(r, ix, remaining, wallet) <==> pinned && RuleHolds(r, ix, remaining, wallet))
  {
    hide RuleMatches, RuleHolds, ConstraintMatches;
    PinnedRuleStaysInRange(r, ix, remaining, wallet);
    RuleDecides(r, ix, remaining, wallet);
  }

  /**
   * What validity is for: a valid rule never matches empty data, a pinned length leaves room for the
   * selector, and account data is only looked at under a pinned owner and never at no bytes.
   */
  lemma {:induction false} ValidRuleIsMeaningful(r: InstructionRule, ix: CompactInstruction,
                                                 remaining: seq<AccountInfo>, wallet: Pubkey)
    requires ValidRule(r)
    ensures RuleMatches(r, ix, remaining, wallet) ==> ix.data != []
    ensures r.dataLength.Some? ==> |r.selector| <= r.dataLength.value
    ensures forall a, c :: a in r.accounts && c in a.data ==> a.owner.Some? && !ConstraintMatches(c, [])
    ensures RuleMatches(r, ix, remaining, wallet) ==>
              forall a :: a in r.accounts && a.data != [] ==>
                && a.index < |ix.accountIndexes| && ix.accountIndexes[a.index] < |remaining|
                && Some(remaining[ix.accountIndexes[a.index]].owner) == a.owner
  {
    RuleDecides(r, ix, remaining, wallet);
    forall a, c | a in r.accounts && c in a.data
      ensures a.owner.Some? && !ConstraintMatches(c, [])
    {
      ConstraintDecides(c, []);
    }
  }

  // ---------------------------------------------------------------- order of permissions

  lemma {:induction false} FindIsMembership(ps: seq<ProgramPermission>, p: ProgramPermission)
    requires DistinctIds(ps)
    ensures p in ps <==> Find(ps, p.programId) == Some(p.access)
  {
    if ps != [] {
      FindIsMembership(ps[1..], p);
      assert ps == [ps[0]] + ps[1..];
    }
  }

  lemma {:induction false} FindNone(ps: seq<ProgramPermission>, program: Pubkey)
    ensures Find(ps, program) == None <==> forall p :: p in ps ==> p.programId != program
  {
    if ps != [] {
      FindNone(ps[1..], program);
      assert ps == [ps[0]] + ps[1..];
    }
  }

  /** What a valid list allows, with no reference to the order in which it is searched. */
  ghost predicate Allowed(ps: seq<ProgramPermission>, baseline: set<Pubkey>, program: Pubkey,
                          ix: CompactInstruction, remaining: seq<AccountInfo>, wallet: Pubkey)
  {
    || ((forall p :: p in ps ==> p.programId != program) && program in baseline)
    || ProgramPermission(program, AllInstructions) in ps
    || exists rules :: ProgramPermission(program, Restricted(rules)) in ps
                       && exists r :: r in rules && RuleMatches(r, ix, remaining, wallet)
  }

  lemma {:induction false} CheckDecidesAllowed(ps: seq<ProgramPermission>, baseline: set<Pubkey>, program: Pubkey,
                                               ix: CompactInstruction, remaining: seq<AccountInfo>, wallet: Pubkey)
    requires DistinctIds(ps)
    ensures CheckInstruction(ps, baseline, program, ix, remaining, wallet).Ok?
       <==> Allowed(ps, baseline, program, ix, remaining, wallet)
  {
    FindNone(ps, program);
    FindIsMembership(ps, ProgramPermission(program, AllInstructions));
    forall rules
      ensures ProgramPermission(program, Restricted(rules)) in ps <==> Find(ps, program) == Some(Restricted(rules))
    {
      FindIsMembership(ps, ProgramPermission(program, Restricted(rules)));
    }
  }

  /** A refusal says whether the program or only the instruction was refused. */
  lemma {:induction false} RefusalNamesItsReason(ps: seq<ProgramPermission>, baseline: set<Pubkey>, program: Pubkey,
                                                 ix: CompactInstruction, remaining: seq<AccountInfo>, wallet: Pubkey)
    requires DistinctIds(ps) && !Allowed(ps, baseline, program, ix, remaining, wallet)
    ensures CheckInstruction(ps, baseline, program, ix, remaining, wallet)
         == Err(if exists rules :: ProgramPermission(program, Restricted(rules)) in ps
                then InstructionNotAllowed else ProgramNotAllowed)
  {
    CheckDecidesAllowed(ps, baseline, program, ix, remaining, wallet);
    if Find(ps, program).Some? {
      var p := FoundIsMember(ps, program);
      assert p == ProgramPermission(program, p.access);
    }
    forall rules
      ensures ProgramPermission(program, Restricted(rules)) in ps <==> Find(ps, program) == Some(Restricted(rules))
    {
      FindIsMembership(ps, ProgramPermission(program, Restricted(rules)));
    }
  }

  /** Reordering a valid list changes no answer, error codes included. */
  lemma {:induction false} OrderDoesNotMatter(ps: seq<ProgramPermission>, qs: seq<ProgramPermission>,
                                              baseline: set<Pubkey>, program: Pubkey, ix: CompactInstruction,
                                              remaining: seq<AccountInfo>, wallet: Pubkey)
    requires DistinctIds(ps) && multiset(ps) == multiset(qs)
    ensures CheckInstruction(ps, baseline, program, ix, remaining, wallet)
         == CheckInstruction(qs, baseline, program, ix, remaining, wallet)
  {
    assert forall p :: p in ps <==> p in multiset(ps);
    assert forall p :: p in qs <==> p in multiset(qs);
    FindNone(ps, program);
    FindNone(qs, program);
    if Find(ps, program).Some? {
      FindSameAfterReorder(ps, qs, program);
    }
  }

  lemma {:induction false} FindSameAfterReorder(ps: seq<ProgramPermission>, qs: seq<ProgramPermission>, program: Pubkey)
    requires DistinctIds(ps) && forall p :: p in ps <==> p in qs
    requires Find(ps, program).Some? && Find(qs, program).Some?
    ensures Find(qs, program) == Find(ps, program)
  {
    var q := FoundIsMember(qs, program);
    FindIsMembership(ps, q);
  }

  lemma {:induction false} FoundIsMember(ps: seq<ProgramPermission>, program: Pubkey) returns (p: ProgramPermission)
    requires Find(ps, program).Some?
    ensures p in ps && p.programId == program && Find(ps, program) == Some(p.access)
  {
    if ps[0].programId == program {
      p := ps[0];
    } else {
      p := FoundIsMember(ps[1..], program);
    }
  }
}
