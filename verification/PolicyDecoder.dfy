/**
 * The bounded decoder as it runs: one cursor over the input, one heap budget, and vectors that
 * ask for their buffers before their items are read. `requested` adds up what they ask for.
 */
module PolicyDecoder {
  import opened Bytes
  import opened Wrappers
  import opened PolicyTypes
  import opened PolicyCodec
  import opened PolicyRules
  import opened PolicyRoundTrip

  /** The outcome `p` predicts: a value with the cursor and budget moved, or an error. */
  ghost predicate Yields<T>(p: Parse<T>, r: Option<T>, input: seq<byte>, budget: nat) {
    match p
    case Failed => r.None?
    case Parsed(v, i, b) => r == Some(v) && input == i && budget == b
  }

  /** Reading the remaining items of a vector completes the items already read. */
  ghost predicate Resumes<T>(whole: Parse<seq<T>>, items: seq<T>, tail: Parse<seq<T>>) {
    match tail
    case Failed => whole.Failed?
    case Parsed(v, i, b) => whole == Parsed(items + v, i, b)
  }

  lemma {:induction false} ResumesStart<T>(whole: Parse<seq<T>>)
    ensures Resumes(whole, [], whole)
  {
    if whole.Parsed? {
      assert [] + whole.value == whole.value;
    }
  }

  lemma {:induction false} ResumesStep<T>(whole: Parse<seq<T>>, items: seq<T>, n: nat, p: Parser<T>,
                                          input: seq<byte>, budget: nat,
                                          item: Option<T>, input': seq<byte>, budget': nat)
    requires n > 0 && Resumes(whole, items, ParseItems(n, p, input, budget))
    requires Yields(p(input, budget), item, input', budget')
    ensures item.None? ==> whole.Failed?
    ensures item.Some? ==> Resumes(whole, items + [item.value], ParseItems(n - 1, p, input', budget'))
  {
    if item.Some? {
      var tail := ParseItems(n - 1, p, input', budget');
      if tail.Parsed? {
        assert items + ([item.value] + tail.value) == items + [item.value] + tail.value;
      }
    }
  }

  lemma {:induction false} ResumesEnd<T>(whole: Parse<seq<T>>, items: seq<T>, p: Parser<T>, input: seq<byte>, budget: nat)
    requires Resumes(whole, items, ParseItems(0, p, input, budget))
    ensures whole == Parsed(items, input, budget)
  {
    assert items + [] == items;
  }

  class Decoder {
    const sz: Sizes
    var input: seq<byte>
    var budget: nat
    var requested: nat

    constructor (sz: Sizes, input: seq<byte>)
      ensures this.sz == sz && this.input == input
      ensures budget == MAX_PERMISSION_HEAP_BYTES && requested == 0
    {
      this.sz, this.input := sz, input;
      budget, requested := MAX_PERMISSION_HEAP_BYTES, 0;
    }

    method U8() returns (r: Option<u8>)
      modifies this
      ensures Yields(ParseU8(old(input), old(budget)), r, input, budget)
      ensures requested == old(requested) && budget == old(budget)
    {
      if input == [] {
        return None;
      }
      r := Some(input[0]);
      input := input[1..];
    }

    method U16() returns (r: Option<u16>)
      modifies this
      ensures Yields(ParseU16(old(input), old(budget)), r, input, budget)
      ensures requested == old(requested) && budget == old(budget)
    {
      if |input| < 2 {
        return None;
      }
      LeValueRoundTrip(input[..2]);
      Pow256Values();
      r := Some(LeValue(input[..2]));
      input := input[2..];
    }

    method U64() returns (r: Option<u64>)
      modifies this
      ensures Yields(ParseU64(old(input), old(budget)), r, input, budget)
      ensures requested == old(requested) && budget == old(budget)
    {
      if |input| < 8 {
        return None;
      }
      LeValueRoundTrip(input[..8]);
      Pow256Values();
      r := Some(LeValue(input[..8]));
      input := input[8..];
    }

    method Key() returns (r: Option<Pubkey>)
      modifies this
      ensures Yields(ParseKey(old(input), old(budget)), r, input, budget)
      ensures requested == old(requested) && budget == old(budget)
    {
      if |input| < 32 {
        return None;
      }
      r := Some(input[..32]);
      input := input[32..];
    }

    method OptionalU16() returns (r: Option<Option<u16>>)
      modifies this
      ensures Yields(ParseOption(ParseU16, old(input), old(budget)), r, input, budget)
      ensures requested == old(requested) && budget == old(budget)
    {
      var tag := U8();
      if tag.None? || tag.value > 1 {
        return None;
      }
      if tag.value == 0 {
        return Some(None);
      }
      var v := U16();
      r := if v.None? then None else Some(v);
    }

    method OptionalU8() returns (r: Option<Option<u8>>)
      modifies this
      ensures Yields(ParseOption(ParseU8, old(input), old(budget)), r, input, budget)
      ensures requested == old(requested) && budget == old(budget)
    {
      var tag := U8();
      if tag.None? || tag.value > 1 {
        return None;
      }
      if tag.value == 0 {
        return Some(None);
      }
      var v := U8();
      r := if v.None? then None else Some(v);
    }

    method OptionalKey() returns (r: Option<Option<Pubkey>>)
      modifies this
      ensures Yields(ParseOption(ParseKey, old(input), old(budget)), r, input, budget)
      ensures requested == old(requested) && budget == old(budget)
    {
      var tag := U8();
      if tag.None? || tag.value > 1 {
        return None;
      }
      if tag.value == 0 {
        return Some(None);
      }
      var v := Key();
      r := if v.None? then None else Some(v);
    }

    method OptionalBool() returns (r: Option<Option<bool>>)
      modifies this
      ensures Yields(ParseOption(ParseBool, old(input), old(budget)), r, input, budget)
      ensures requested == old(requested) && budget == old(budget)
    {
      var tag := U8();
      if tag.None? || tag.value > 1 {
        return None;
      }
      if tag.value == 0 {
        return Some(None);
      }
      var v := U8();
      r := if v.None? || v.value > 1 then None else Some(Some(v.value == 1));
    }

    /** The head of `list`: read the count, bound it, charge the buffer, then ask for it. */
    method Count(size: nat, max: nat) returns (count: Option<nat>)
      modifies this
      ensures Yields(ParseCount(size, max, old(input), old(budget)), count, input, budget)
      ensures requested + budget == old(requested + budget)
    {
      if |input| < 4 {
        return None;
      }
      var n := LeValue(input[..4]);
      input := input[4..];
      if n > max || n > |input| {
        return None;
      }
      var cost := n * size;
      if cost > budget {
        return None;
      }
      budget := budget - cost;
      requested := requested + cost;
      count := Some(n);
    }

    method Bytes() returns (r: Option<seq<byte>>)
      modifies this
      ensures Yields(ParseBytes(old(input), old(budget)), r, input, budget)
      ensures requested + budget == old(requested + budget)
    {
      hide Resumes, ParseItems, ParseCount, ParseU8;
      var n := Count(1, MAX_MATCH_BYTES);
      if n.None? {
        return None;
      }
      ghost var whole := ParseItems(n.value, ParseU8, input, budget);
      var items := [];
      ResumesStart(whole);
      for i := 0 to n.value
        invariant requested + budget == old(requested + budget)
        invariant Resumes(whole, items, ParseItems(n.value - i, ParseU8, input, budget))
      {
        ghost var input', budget' := input, budget;
        var item := U8();
        ResumesStep(whole, items, n.value - i, ParseU8, input', budget', item, input, budget);
        if item.None? {
          return None;
        }
        items := items + [item.value];
      }
      ResumesEnd(whole, items, ParseU8, input, budget);
      r := Some(items);
    }

    method Predicate() returns (r: Option<DataPredicate>)
      modifies this
      ensures Yields(ParsePredicate(old(input), old(budget)), r, input, budget)
      ensures requested + budget == old(requested + budget)
    {
      var tag := U8();
      if tag == Some(0) {
        var bytes := Bytes();
        r := if bytes.None? then None else Some(BytesEqual(bytes.value));
      } else if tag == Some(1) {
        r := UnsignedFields();
      } else {
        r := None;
      }
    }

    method UnsignedFields() returns (r: Option<DataPredicate>)
      modifies this
      ensures Yields(ParseUnsigned(old(input), old(budget)), r, input, budget)
      ensures requested + budget == old(requested + budget)
    {
      var w := U8();
      if w.None? || w.value > 3 {
        return None;
      }
      var c := U8();
      if c.None? || c.value > 5 {
        return None;
      }
      var v := U64();
      if v.None? {
        return None;
      }
      var width := if w.value == 0 then NumericWidth.U8 else if w.value == 1 then NumericWidth.U16
                   else if w.value == 2 then NumericWidth.U32 else NumericWidth.U64;
      var comparison := if c.value == 0 then Equal else if c.value == 1 then NotEqual
                        else if c.value == 2 then LessThan else if c.value == 3 then LessThanOrEqual
                        else if c.value == 4 then GreaterThan else GreaterThanOrEqual;
      r := Some(Unsigned(width, comparison, v.value));
    }

    method Constraint() returns (r: Option<DataConstraint>)
      modifies this
      ensures Yields(ParseConstraint(old(input), old(budget)), r, input, budget)
      ensures requested + budget == old(requested + budget)
    {
      var offset := U16();
      if offset.None? {
        return None;
      }
      var test := Predicate();
      r := if test.None? then None else Some(DataConstraint(offset.value, test.value));
    }

    method Constraints() returns (r: Option<seq<DataConstraint>>)
      modifies this
      ensures Yields(ParseVec(sz.constraint_, MAX_RULE_CONSTRAINTS, ParseConstraint, old(input), old(budget)),
                     r, input, budget)
      ensures requested + budget == old(requested + budget)
    {
      hide Resumes, ParseItems, ParseCount, ParseConstraint;
      var n := Count(sz.constraint_, MAX_RULE_CONSTRAINTS);
      if n.None? {
        return None;
      }
      ghost var whole := ParseItems(n.value, ParseConstraint, input, budget);
      var items := [];
      ResumesStart(whole);
      for i := 0 to n.value
        invariant requested + budget == old(requested + budget)
        invariant Resumes(whole, items, ParseItems(n.value - i, ParseConstraint, input, budget))
      {
        ghost var input', budget' := input, budget;
        var item := Constraint();
        ResumesStep(whole, items, n.value - i, ParseConstraint, input', budget', item, input, budget);
        if item.None? {
          return None;
        }
        items := items + [item.value];
      }
      ResumesEnd(whole, items, ParseConstraint, input, budget);
      r := Some(items);
    }

    method KeyConstraint() returns (r: Option<AccountKeyConstraint>)
      modifies this
      ensures Yields(ParseKeyConstraint(old(input), old(budget)), r, input, budget)
      ensures requested == old(requested) && budget == old(budget)
    {
      var tag := U8();
      if tag == Some(0) {
        r := Some(Any);
      } else if tag == Some(1) {
        var key := Key();
        r := if key.None? then None else Some(Address(key.value));
      } else if tag == Some(2) {
        r := Some(Wallet);
      } else {
        r := None;
      }
    }

    method Account() returns (r: Option<AccountConstraint>)
      modifies this
      ensures Yields(ParseAccount(sz, old(input), old(budget)), r, input, budget)
      ensures requested + budget == old(requested + budget)
    {
      var index := U8();
      if index.None? { return None; }
      var key := KeyConstraint();
      if key.None? { return None; }
      var owner := OptionalKey();
      if owner.None? { return None; }
      var isSigner := OptionalBool();
      if isSigner.None? { return None; }
      var isWritable := OptionalBool();
      if isWritable.None? { return None; }
      var data := Constraints();
      if data.None? { return None; }
      r := Some(AccountConstraint(index.value, key.value, owner.value, isSigner.value, isWritable.value, data.value));
    }

    method Accounts() returns (r: Option<seq<AccountConstraint>>)
      modifies this
      ensures Yields(ParseVec(sz.account, MAX_RULE_CONSTRAINTS, AccountParser(sz), old(input), old(budget)),
                     r, input, budget)
      ensures requested + budget == old(requested + budget)
    {
      hide Resumes, ParseItems, ParseCount, ParseAccount;
      var n := Count(sz.account, MAX_RULE_CONSTRAINTS);
      if n.None? {
        return None;
      }
      ghost var whole := ParseItems(n.value, AccountParser(sz), input, budget);
      var items := [];
      ResumesStart(whole);
      for i := 0 to n.value
        invariant requested + budget == old(requested + budget)
        invariant Resumes(whole, items, ParseItems(n.value - i, AccountParser(sz), input, budget))
      {
        ghost var input', budget' := input, budget;
        var item := Account();
        ResumesStep(whole, items, n.value - i, AccountParser(sz), input', budget', item, input, budget);
        if item.None? {
          return None;
        }
        items := items + [item.value];
      }
      ResumesEnd(whole, items, AccountParser(sz), input, budget);
      r := Some(items);
    }

    method Rule() returns (r: Option<InstructionRule>)
      modifies this
      ensures Yields(ParseRule(sz, old(input), old(budget)), r, input, budget)
      ensures requested + budget == old(requested + budget)
    {
      var selector := Bytes();
      if selector.None? { return None; }
      var dataLength := OptionalU16();
      if dataLength.None? { return None; }
      var accountCount := OptionalU8();
      if accountCount.None? { return None; }
      var accounts := Accounts();
      if accounts.None? { return None; }
      var arguments := Constraints();
      if arguments.None? { return None; }
      r := Some(InstructionRule(selector.value, dataLength.value, accountCount.value, accounts.value, arguments.value));
    }

    method Rules() returns (r: Option<seq<InstructionRule>>)
      modifies this
      ensures Yields(ParseVec(sz.rule, MAX_INSTRUCTION_RULES, RuleParser(sz), old(input), old(budget)),
                     r, input, budget)
      ensures requested + budget == old(requested + budget)
    {
      hide Resumes, ParseItems, ParseCount, ParseRule;
      var n := Count(sz.rule, MAX_INSTRUCTION_RULES);
      if n.None? {
        return None;
      }
      ghost var whole := ParseItems(n.value, RuleParser(sz), input, budget);
      var items := [];
      ResumesStart(whole);
      for i := 0 to n.value
        invariant requested + budget == old(requested + budget)
        invariant Resumes(whole, items, ParseItems(n.value - i, RuleParser(sz), input, budget))
      {
        ghost var input', budget' := input, budget;
        var item := Rule();
        ResumesStep(whole, items, n.value - i, RuleParser(sz), input', budget', item, input, budget);
        if item.None? {
          return None;
        }
        items := items + [item.value];
      }
      ResumesEnd(whole, items, RuleParser(sz), input, budget);
      r := Some(items);
    }

    method Permission() returns (r: Option<ProgramPermission>)
      modifies this
      ensures Yields(ParsePermission(sz, old(input), old(budget)), r, input, budget)
      ensures requested + budget == old(requested + budget)
    {
      var programId := Key();
      if programId.None? { return None; }
      var tag := U8();
      if tag == Some(0) {
        r := Some(ProgramPermission(programId.value, Denied));
      } else if tag == Some(1) {
        r := Some(ProgramPermission(programId.value, AllInstructions));
      } else if tag == Some(2) {
        var rules := Rules();
        r := if rules.None? then None else Some(ProgramPermission(programId.value, Restricted(rules.value)));
      } else {
        r := None;
      }
    }

    method Permissions() returns (r: Option<seq<ProgramPermission>>)
      modifies this
      ensures Yields(ParsePermissions(sz, old(input), old(budget)), r, input, budget)
      ensures requested + budget == old(requested + budget)
    {
      hide Resumes, ParseItems, ParseCount, ParsePermission;
      var n := Count(sz.permission, MAX_PROGRAM_PERMISSIONS);
      if n.None? {
        return None;
      }
      ghost var whole := ParseItems(n.value, PermissionParser(sz), input, budget);
      var items := [];
      ResumesStart(whole);
      for i := 0 to n.value
        invariant requested + budget == old(requested + budget)
        invariant Resumes(whole, items, ParseItems(n.value - i, PermissionParser(sz), input, budget))
      {
        ghost var input', budget' := input, budget;
        var item := Permission();
        ResumesStep(whole, items, n.value - i, PermissionParser(sz), input', budget', item, input, budget);
        if item.None? {
          return None;
        }
        items := items + [item.value];
      }
      ResumesEnd(whole, items, PermissionParser(sz), input, budget);
      r := Some(items);
    }
  }

  /** The decoder as one function of its input. */
  function DecodePermissions(sz: Sizes, programs: Programs, input: seq<byte>): Option<seq<ProgramPermission>> {
    if |input| > MAX_PERMISSION_BYTES then None
    else
      match ParsePermissions(sz, input, MAX_PERMISSION_HEAP_BYTES)
      case Failed => None
      case Parsed(ps, rest, _) =>
        if rest == [] && ValidPermissions(sz, programs, ps) then Some(ps) else None
  }

  /** On every input the run agrees with that function and never asks for more heap than the cap. */
  method Decode(sz: Sizes, programs: Programs, input: seq<byte>)
    returns (r: Option<seq<ProgramPermission>>, requested: nat)
    ensures r == DecodePermissions(sz, programs, input)
    ensures requested <= MAX_PERMISSION_HEAP_BYTES
    ensures r.Some? ==> requested == PermissionsHeap(sz, r.value)
  {
    if |input| > MAX_PERMISSION_BYTES {
      return None, 0;
    }
    var decoder := new Decoder(sz, input);
    r := decoder.Permissions();
    requested := decoder.requested;
    if r.None? || decoder.input != [] {
      return None, requested;
    }
    PermissionsExplained(sz, input, MAX_PERMISSION_HEAP_BYTES);
    var ok := ValidatePermissions(sz, programs, r.value);
    if !ok {
      r := None;
    }
  }

  // ---------------------------------------------------------------- what the decoder guarantees

  lemma {:induction false} ValidIsWithinBounds(sz: Sizes, programs: Programs, ps: seq<ProgramPermission>)
    requires ValidPermissions(sz, programs, ps)
    ensures PermissionsOk(ps)
  {
    forall p | p in ps
      ensures PermissionOk(p)
    {
      assert ValidPermission(programs, p);
      if p.access.Restricted? {
        forall r | r in p.access.rules
          ensures RuleOk(r)
        {
          assert ValidRule(r);
          assert forall c :: c in r.arguments ==> ValidArgument(r, c);
          assert forall a :: a in r.accounts ==> ValidAccount(r, a);
        }
      }
    }
  }

  /** Accepted byte strings are exactly the encodings, of at most 4096 bytes, of the valid lists. */
  lemma {:induction false} DecodesExactly(sz: Sizes, programs: Programs, b: seq<byte>, ps: seq<ProgramPermission>)
    ensures DecodePermissions(sz, programs, b) == Some(ps)
       <==> ValidPermissions(sz, programs, ps) && |b| <= MAX_PERMISSION_BYTES && b == EncodePermissions(ps)
  {
    hide ParsePermissions, EncodePermissions, ValidPermissions, PermissionsOk, PermissionsHeap;
    PermissionsExplained(sz, b, MAX_PERMISSION_HEAP_BYTES);
    var r := ParsePermissions(sz, b, MAX_PERMISSION_HEAP_BYTES);
    if r.Parsed? && r.rest == [] {
      assert EncodePermissions(r.value) + [] == EncodePermissions(r.value);
    }
    if ValidPermissions(sz, programs, ps) && b == EncodePermissions(ps) {
      ValidIsWithinBounds(sz, programs, ps);
      ValidFitsHeap(sz, programs, ps);
      PermissionsParsed(sz, ps, [], MAX_PERMISSION_HEAP_BYTES);
      assert b + [] == b;
    }
  }

  lemma {:induction false} ValidFitsHeap(sz: Sizes, programs: Programs, ps: seq<ProgramPermission>)
    requires ValidPermissions(sz, programs, ps)
    ensures PermissionsHeap(sz, ps) <= MAX_PERMISSION_HEAP_BYTES
  {
  }

  /** Whatever bytes are accepted, they permit neither of the wallet's own programs, within fixed limits. */
  lemma {:induction false} AcceptedWithinLimits(sz: Sizes, programs: Programs, b: seq<byte>)
    requires DecodePermissions(sz, programs, b).Some?
    ensures var ps := DecodePermissions(sz, programs, b).value;
            && |b| <= 4096 && |ps| <= 16 && PermissionsHeap(sz, ps) <= 8192
            && (forall p :: p in ps ==> p.programId != programs.self && p.programId != programs.token)
            && (forall i, j :: 0 <= i < j < |ps| ==> ps[i].programId != ps[j].programId)
            && (forall p, r :: p in ps && p.access.Restricted? && r in p.access.rules ==>
                  && 1 <= |p.access.rules| <= 16 && 1 <= |r.selector| <= 64
                  && |r.accounts| <= 16 && |r.arguments| <= 16)
  {
    hide ParsePermissions, EncodePermissions, PermissionsHeap;
    DecodesExactly(sz, programs, b, DecodePermissions(sz, programs, b).value);
  }

  /** No accepted byte string is a strict prefix of another. */
  lemma {:induction false} AcceptedIsPrefixFree(sz: Sizes, programs: Programs, b: seq<byte>, more: seq<byte>)
    requires DecodePermissions(sz, programs, b).Some?
    requires DecodePermissions(sz, programs, b + more).Some?
    ensures more == []
  {
    hide ParsePermissions, EncodePermissions, ValidPermissions, PermissionsOk, PermissionsHeap;
    var ps := DecodePermissions(sz, programs, b).value;
    DecodesExactly(sz, programs, b, ps);
    ValidIsWithinBounds(sz, programs, ps);
    ValidFitsHeap(sz, programs, ps);
    PermissionsParsed(sz, ps, more, MAX_PERMISSION_HEAP_BYTES);
  }

  /** What decoding charged is what the validator adds up, so its heap check cannot fail here. */
  lemma {:induction false} ChargedIsHeap(sz: Sizes, b: seq<byte>)
    ensures var r := ParsePermissions(sz, b, MAX_PERMISSION_HEAP_BYTES);
            r.Parsed? ==>
              && MAX_PERMISSION_HEAP_BYTES - r.budget == PermissionsHeap(sz, r.value)
              && PermissionsHeap(sz, r.value) <= MAX_PERMISSION_HEAP_BYTES
  {
    hide ParsePermissions, PermissionsHeap;
    PermissionsExplained(sz, b, MAX_PERMISSION_HEAP_BYTES);
  }
}
