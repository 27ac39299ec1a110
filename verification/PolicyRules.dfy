/** Which permission lists are valid, and the validator's loops that decide it. */
module PolicyRules {
  import opened Bytes
  import opened PolicyTypes

  /** Programs no permission may name: this one and phygital-token. */
  datatype Programs = Programs(self: Pubkey, token: Pubkey)

  predicate ValidConstraint(c: DataConstraint) {
    match c.test
    case BytesEqual(bytes) => 1 <= |bytes| <= MAX_MATCH_BYTES
    case Unsigned(width, _, value) => value < Pow256(width.Bytes())
  }

  predicate ValidArgument(r: InstructionRule, c: DataConstraint) {
    ValidConstraint(c) && (r.dataLength.Some? ==> c.offset + c.Width() <= r.dataLength.value)
  }

  predicate ValidAccount(r: InstructionRule, a: AccountConstraint) {
    && (r.accountCount.Some? ==> a.index < r.accountCount.value)
    && |a.data| <= MAX_RULE_CONSTRAINTS
    && (a.data == [] || a.owner.Some?)
    && forall c :: c in a.data ==> ValidConstraint(c)
  }

  predicate ValidRule(r: InstructionRule) {
    && 1 <= |r.selector| <= MAX_MATCH_BYTES
    && |r.accounts| <= MAX_RULE_CONSTRAINTS
    && |r.arguments| <= MAX_RULE_CONSTRAINTS
    && (r.dataLength.Some? ==> |r.selector| <= r.dataLength.value)
    && (forall c :: c in r.arguments ==> ValidArgument(r, c))
    && (forall a :: a in r.accounts ==> ValidAccount(r, a))
  }

  predicate ValidPermission(programs: Programs, p: ProgramPermission) {
    && p.programId != programs.self
    && p.programId != programs.token
    && (p.access.Restricted? ==>
          && 1 <= |p.access.rules| <= MAX_INSTRUCTION_RULES
          && forall r :: r in p.access.rules ==> ValidRule(r))
  }

  predicate DistinctIds(ps: seq<ProgramPermission>) {
    forall i, j :: 0 <= i < j < |ps| ==> ps[i].programId != ps[j].programId
  }

  predicate ValidPermissions(sz: Sizes, programs: Programs, ps: seq<ProgramPermission>) {
    && |ps| <= MAX_PROGRAM_PERMISSIONS
    && DistinctIds(ps)
    && (forall p :: p in ps ==> ValidPermission(programs, p))
    && PermissionsHeap(sz, ps) <= MAX_PERMISSION_HEAP_BYTES
  }

  // ---------------------------------------------------------------- the validator's loops

  method ValidateConstraint(c: DataConstraint) returns (ok: bool)
    ensures ok == ValidConstraint(c)
  {
    Pow256Values();
    match c.test
    case BytesEqual(bytes) =>
      ok := bytes != [] && |bytes| <= MAX_MATCH_BYTES;
    case Unsigned(width, _, value) =>
      match width {
        case U8 => ok := value < 0x100;
        case U16 => ok := value < 0x1_0000;
        case U32 => ok := value < 0x1_0000_0000;
        case U64 => ok := true;
      }
  }

  method ValidateArguments(r: InstructionRule, start: nat) returns (ok: bool, heap: nat)
    ensures ok == forall c :: c in r.arguments ==> ValidArgument(r, c)
    ensures ok ==> heap == start + Sum(r.arguments, ConstraintHeap)
  {
    heap := start;
    for i := 0 to |r.arguments|
      invariant forall c :: c in r.arguments[..i] ==> ValidArgument(r, c)
      invariant heap + Sum(r.arguments[i..], ConstraintHeap) == start + Sum(r.arguments, ConstraintHeap)
    {
      var c := r.arguments[i];
      assert r.arguments[i..][1..] == r.arguments[i + 1..];
      var valid := ValidateConstraint(c);
      assert c in r.arguments;
      if !valid || (r.dataLength.Some? && c.offset + c.Width() > r.dataLength.value) {
        return false, heap;
      }
      heap := heap + ConstraintHeap(c);
    }
    ok := true;
  }

  method ValidateAccountData(a: AccountConstraint, start: nat) returns (ok: bool, heap: nat)
    ensures ok == forall c :: c in a.data ==> ValidConstraint(c)
    ensures ok ==> heap == start + Sum(a.data, ConstraintHeap)
  {
    heap := start;
    for i := 0 to |a.data|
      invariant forall c :: c in a.data[..i] ==> ValidConstraint(c)
      invariant heap + Sum(a.data[i..], ConstraintHeap) == start + Sum(a.data, ConstraintHeap)
    {
      assert a.data[i..][1..] == a.data[i + 1..];
      var valid := ValidateConstraint(a.data[i]);
      if !valid {
        return false, heap;
      }
      heap := heap + ConstraintHeap(a.data[i]);
    }
    ok := true;
  }

  method ValidateAccounts(sz: Sizes, r: InstructionRule, start: nat) returns (ok: bool, heap: nat)
    ensures ok == forall a :: a in r.accounts ==> ValidAccount(r, a)
    ensures ok ==> heap == start + Sum(r.accounts, AccountHeapIn(sz))
  {
    heap := start;
    for i := 0 to |r.accounts|
      invariant forall a :: a in r.accounts[..i] ==> ValidAccount(r, a)
      invariant heap + Sum(r.accounts[i..], AccountHeapIn(sz)) == start + Sum(r.accounts, AccountHeapIn(sz))
    {
      var a := r.accounts[i];
      assert a in r.accounts;
      assert r.accounts[i..][1..] == r.accounts[i + 1..];
      if (r.accountCount.Some? && a.index >= r.accountCount.value)
         || |a.data| > MAX_RULE_CONSTRAINTS
         || (a.data != [] && a.owner.None?) {
        return false, heap;
      }
      heap := heap + |a.data| * sz.constraint_;
      ok, heap := ValidateAccountData(a, heap);
      if !ok {
        return;
      }
    }
    ok := true;
  }

  method ValidateRule(sz: Sizes, r: InstructionRule, start: nat) returns (ok: bool, heap: nat)
    ensures ok == ValidRule(r)
    ensures ok ==> heap == start + RuleHeap(sz, r)
  {
    heap := start + |r.selector| + |r.accounts| * sz.account + |r.arguments| * sz.constraint_;
    if r.selector == [] || |r.selector| > MAX_MATCH_BYTES
       || |r.accounts| > MAX_RULE_CONSTRAINTS || |r.arguments| > MAX_RULE_CONSTRAINTS
       || (r.dataLength.Some? && r.dataLength.value < |r.selector|) {
      return false, heap;
    }
    ok, heap := ValidateArguments(r, heap);
    if ok {
      ok, heap := ValidateAccounts(sz, r, heap);
    }
  }

  method ValidateRules(sz: Sizes, rules: seq<InstructionRule>, start: nat) returns (ok: bool, heap: nat)
    ensures ok == forall r :: r in rules ==> ValidRule(r)
    ensures ok ==> heap == start + Sum(rules, RuleHeapIn(sz))
  {
    heap := start;
    for i := 0 to |rules|
      invariant forall r :: r in rules[..i] ==> ValidRule(r)
      invariant heap + Sum(rules[i..], RuleHeapIn(sz)) == start + Sum(rules, RuleHeapIn(sz))
    {
      assert rules[i..][1..] == rules[i + 1..];
      ok, heap := ValidateRule(sz, rules[i], heap);
      if !ok {
        assert rules[i] in rules;
        return;
      }
    }
    ok := true;
  }

  /** Does an earlier permission already name this program? */
  method Repeats(ps: seq<ProgramPermission>, i: nat) returns (found: bool)
    requires i < |ps|
    ensures found == exists j :: 0 <= j < i && ps[j].programId == ps[i].programId
  {
    for j := 0 to i
      invariant forall k :: 0 <= k < j ==> ps[k].programId != ps[i].programId
    {
      if ps[j].programId == ps[i].programId {
        return true;
      }
    }
    found := false;
  }

  method ValidatePermission(sz: Sizes, programs: Programs, p: ProgramPermission, start: nat)
    returns (ok: bool, heap: nat)
    ensures ok == ValidPermission(programs, p)
    ensures ok ==> heap == start + PermissionHeap(sz, p)
  {
    ok, heap := true, start;
    if p.programId == programs.self || p.programId == programs.token {
      return false, heap;
    }
    if p.access.Restricted? {
      var rules := p.access.rules;
      if rules == [] || |rules| > MAX_INSTRUCTION_RULES {
        return false, heap;
      }
      ok, heap := ValidateRules(sz, rules, heap + |rules| * sz.rule);
    }
  }

  method ValidatePermissions(sz: Sizes, programs: Programs, ps: seq<ProgramPermission>) returns (ok: bool)
    ensures ok == ValidPermissions(sz, programs, ps)
  {
    hide ValidPermission, PermissionHeap;
    if |ps| > MAX_PROGRAM_PERMISSIONS {
      return false;
    }
    var heap := |ps| * sz.permission;
    for i := 0 to |ps|
      invariant DistinctIds(ps[..i])
      invariant forall p :: p in ps[..i] ==> ValidPermission(programs, p)
      invariant heap >= 0 && heap + Sum(ps[i..], PermissionHeapIn(sz)) == PermissionsHeap(sz, ps)
    {
      assert ps[i] in ps;
      assert ps[i..][1..] == ps[i + 1..];
      var repeated := Repeats(ps, i);
      if repeated {
        return false;
      }
      ok, heap := ValidatePermission(sz, programs, ps[i], heap);
      if !ok {
        return;
      }
    }
    assert ps[..|ps|] == ps;
    ok := heap <= MAX_PERMISSION_HEAP_BYTES;
  }
}
