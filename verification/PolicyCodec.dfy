/**
 * The Borsh form of a permission list, and a pure account of the bounded decoder:
 * what it returns, what input it leaves, and what it charges to the heap budget.
 */
module PolicyCodec {
  import opened Bytes
  import opened Wrappers
  import opened PolicyTypes

  // ---------------------------------------------------------------- Borsh encoding

  function EncodeItems<T>(enc: T -> seq<byte>, xs: seq<T>): seq<byte> {
    if xs == [] then [] else enc(xs[0]) + EncodeItems(enc, xs[1..])
  }

  function EncodeVec<T>(enc: T -> seq<byte>, xs: seq<T>): seq<byte> {
    Le(|xs|, 4) + EncodeItems(enc, xs)
  }

  function EncodeU8(v: u8): seq<byte> { [v] }

  function EncodeBytes(b: seq<byte>): seq<byte> { EncodeVec(EncodeU8, b) }

  function EncodeOption<T>(enc: T -> seq<byte>, o: Option<T>): seq<byte> {
    match o
    case None => [0]
    case Some(v) => [1] + enc(v)
  }

  function EncodeBool(b: bool): seq<byte> { if b then [1] else [0] }

  function EncodeU16(v: u16): seq<byte> { Le(v, 2) }

  function EncodeKey(k: Pubkey): seq<byte> { k }

  function ComparisonTag(c: Comparison): u8 {
    match c
    case Equal => 0
    case NotEqual => 1
    case LessThan => 2
    case LessThanOrEqual => 3
    case GreaterThan => 4
    case GreaterThanOrEqual => 5
  }

  function WidthTag(w: NumericWidth): u8 {
    match w
    case U8 => 0
    case U16 => 1
    case U32 => 2
    case U64 => 3
  }

  function EncodeConstraint(c: DataConstraint): seq<byte> {
    Le(c.offset, 2) + EncodePredicate(c.test)
  }

  function EncodePredicate(t: DataPredicate): seq<byte> {
    match t
    case BytesEqual(bytes) => [0] + EncodeBytes(bytes)
    case Unsigned(w, cmp, v) => [1] + ([WidthTag(w)] + ([ComparisonTag(cmp)] + Le(v, 8)))
  }

  function EncodeKeyConstraint(k: AccountKeyConstraint): seq<byte> {
    match k
    case Any => [0]
    case Address(key) => [1] + key
    case Wallet => [2]
  }

  function EncodeAccount(a: AccountConstraint): seq<byte> {
    [a.index] + (EncodeKeyConstraint(a.key) + (EncodeOption(EncodeKey, a.owner)
      + (EncodeOption(EncodeBool, a.isSigner) + (EncodeOption(EncodeBool, a.isWritable)
      + EncodeVec(EncodeConstraint, a.data)))))
  }

  function EncodeRule(r: InstructionRule): seq<byte> {
    EncodeBytes(r.selector) + (EncodeOption(EncodeU16, r.dataLength)
      + (EncodeOption(EncodeU8, r.accountCount) + (EncodeVec(EncodeAccount, r.accounts)
      + EncodeVec(EncodeConstraint, r.arguments))))
  }

  function EncodePermission(p: ProgramPermission): seq<byte> {
    p.programId + EncodeAccess(p.access)
  }

  function EncodeAccess(a: ProgramAccess): seq<byte> {
    match a
    case Denied => [0]
    case AllInstructions => [1]
    case Restricted(rules) => [2] + EncodeVec(EncodeRule, rules)
  }

  function EncodePermissions(ps: seq<ProgramPermission>): seq<byte> {
    EncodeVec(EncodePermission, ps)
  }

  /** Borsh numbers the variants of an enum from zero, in the order they are declared. */
  lemma {:induction false} VariantsAreNumbered(key: Pubkey, bytes: seq<byte>, v: u64, rules: seq<InstructionRule>)
    ensures [ComparisonTag(Equal), ComparisonTag(NotEqual), ComparisonTag(LessThan), ComparisonTag(LessThanOrEqual),
             ComparisonTag(GreaterThan), ComparisonTag(GreaterThanOrEqual)] == [0, 1, 2, 3, 4, 5]
    ensures [WidthTag(U8), WidthTag(U16), WidthTag(U32), WidthTag(U64)] == [0, 1, 2, 3]
    ensures [EncodeAccess(Denied)[0], EncodeAccess(AllInstructions)[0], EncodeAccess(Restricted(rules))[0]] == [0, 1, 2]
    ensures [EncodeKeyConstraint(Any)[0], EncodeKeyConstraint(Address(key))[0], EncodeKeyConstraint(Wallet)[0]] == [0, 1, 2]
    ensures EncodePredicate(BytesEqual(bytes))[0] == 0
    ensures EncodePredicate(Unsigned(U16, LessThan, v)) == [1, 1, 2] + Le(v, 8)
  {
    assert [1] + ([WidthTag(U16)] + ([ComparisonTag(LessThan)] + Le(v, 8))) == [1, 1, 2] + Le(v, 8);
  }

  // ---------------------------------------------------------------- bounded decoding

  /** A decoding step: the value read, the input left over and the heap budget left over. */
  datatype Parse<+T> = Failed | Parsed(value: T, rest: seq<byte>, budget: nat) {
    predicate IsFailure() { Failed? }
    function PropagateFailure<U>(): Parse<U> requires Failed? { Failed }
    function Extract(): (T, seq<byte>, nat) requires Parsed? { (value, rest, budget) }
  }

  type Parser<!T> = (seq<byte>, nat) -> Parse<T>

  function ParseLe(n: nat, input: seq<byte>, budget: nat): Parse<nat> {
    if |input| < n then Failed else Parsed(LeValue(input[..n]), input[n..], budget)
  }

  function ParseU8(input: seq<byte>, budget: nat): Parse<u8> {
    if input == [] then Failed else Parsed(input[0], input[1..], budget)
  }

  function ParseU16(input: seq<byte>, budget: nat): Parse<u16> {
    if |input| < 2 then Failed else
    LeValueRoundTrip(input[..2]);
    Pow256Values();
    Parsed(LeValue(input[..2]), input[2..], budget)
  }

  function ParseU64(input: seq<byte>, budget: nat): Parse<u64> {
    if |input| < 8 then Failed else
    LeValueRoundTrip(input[..8]);
    Pow256Values();
    Parsed(LeValue(input[..8]), input[8..], budget)
  }

  function ParseKey(input: seq<byte>, budget: nat): Parse<Pubkey> {
    if |input| < 32 then Failed else Parsed(input[..32], input[32..], budget)
  }

  function ParseBool(input: seq<byte>, budget: nat): Parse<bool> {
    if input == [] || input[0] > 1 then Failed else Parsed(input[0] == 1, input[1..], budget)
  }

  function ParseOption<T>(p: Parser<T>, input: seq<byte>, budget: nat): Parse<Option<T>> {
    if input == [] || input[0] > 1 then Failed
    else if input[0] == 0 then Parsed(None, input[1..], budget)
    else
      var (v, i, b) :- p(input[1..], budget);
      Parsed(Some(v), i, b)
  }

  function ParseItems<T>(count: nat, p: Parser<T>, input: seq<byte>, budget: nat): (r: Parse<seq<T>>)
    ensures r.Parsed? ==> |r.value| == count
  {
    if count == 0 then Parsed([], input, budget)
    else
      var (x, i, b) :- p(input, budget);
      var (xs, i', b') :- ParseItems(count - 1, p, i, b);
      Parsed([x] + xs, i', b')
  }

  /** A vector's length prefix: bounded, then charged for the buffer it asks for. */
  function ParseCount(size: nat, max: nat, input: seq<byte>, budget: nat): Parse<nat> {
    var (count, i, b) :- ParseLe(4, input, budget);
    if count > max || count > |i| || count * size > b then Failed
    else Parsed(count, i, b - count * size)
  }

  function ParseVec<T>(size: nat, max: nat, p: Parser<T>, input: seq<byte>, budget: nat): Parse<seq<T>> {
    var (count, i, b) :- ParseCount(size, max, input, budget);
    ParseItems(count, p, i, b)
  }

  function ParseBytes(input: seq<byte>, budget: nat): Parse<seq<byte>> {
    ParseVec(1, MAX_MATCH_BYTES, ParseU8, input, budget)
  }

  function ParseWidth(input: seq<byte>, budget: nat): Parse<NumericWidth> {
    var (tag, i, b) :- ParseU8(input, budget);
    if tag == 0 then Parsed(U8, i, b)
    else if tag == 1 then Parsed(U16, i, b)
    else if tag == 2 then Parsed(U32, i, b)
    else if tag == 3 then Parsed(U64, i, b)
    else Failed
  }

  function ParseComparison(input: seq<byte>, budget: nat): Parse<Comparison> {
    var (tag, i, b) :- ParseU8(input, budget);
    if tag == 0 then Parsed(Equal, i, b)
    else if tag == 1 then Parsed(NotEqual, i, b)
    else if tag == 2 then Parsed(LessThan, i, b)
    else if tag == 3 then Parsed(LessThanOrEqual, i, b)
    else if tag == 4 then Parsed(GreaterThan, i, b)
    else if tag == 5 then Parsed(GreaterThanOrEqual, i, b)
    else Failed
  }

  function ParseUnsigned(input: seq<byte>, budget: nat): Parse<DataPredicate> {
    var (width, i, b) :- ParseWidth(input, budget);
    var (comparison, i, b) :- ParseComparison(i, b);
    var (value, i, b) :- ParseU64(i, b);
    Parsed(Unsigned(width, comparison, value), i, b)
  }

  function ParsePredicate(input: seq<byte>, budget: nat): Parse<DataPredicate> {
    var (tag, i, b) :- ParseU8(input, budget);
    if tag == 0 then
      var (bytes, i, b) :- ParseBytes(i, b);
      Parsed(BytesEqual(bytes), i, b)
    else if tag == 1 then
      ParseUnsigned(i, b)
    else Failed
  }

  function ParseConstraint(input: seq<byte>, budget: nat): Parse<DataConstraint> {
    var (offset, i, b) :- ParseU16(input, budget);
    var (test, i, b) :- ParsePredicate(i, b);
    Parsed(DataConstraint(offset, test), i, b)
  }

  function ParseKeyConstraint(input: seq<byte>, budget: nat): Parse<AccountKeyConstraint> {
    var (tag, i, b) :- ParseU8(input, budget);
    if tag == 0 then Parsed(Any, i, b)
    else if tag == 1 then
      var (key, i, b) :- ParseKey(i, b);
      Parsed(Address(key), i, b)
    else if tag == 2 then Parsed(Wallet, i, b)
    else Failed
  }

  function ParseAccount(sz: Sizes, input: seq<byte>, budget: nat): Parse<AccountConstraint> {
    var (index, i, b) :- ParseU8(input, budget);
    var (key, i, b) :- ParseKeyConstraint(i, b);
    var (owner, i, b) :- ParseOption(ParseKey, i, b);
    var (isSigner, i, b) :- ParseOption(ParseBool, i, b);
    var (isWritable, i, b) :- ParseOption(ParseBool, i, b);
    var (data, i, b) :- ParseVec(sz.constraint_, MAX_RULE_CONSTRAINTS, ParseConstraint, i, b);
    Parsed(AccountConstraint(index, key, owner, isSigner, isWritable, data), i, b)
  }

  function AccountParser(sz: Sizes): Parser<AccountConstraint> {
    (input, budget: nat) => ParseAccount(sz, input, budget)
  }

  function ParseRule(sz: Sizes, input: seq<byte>, budget: nat): Parse<InstructionRule> {
    var (selector, i, b) :- ParseBytes(input, budget);
    var (dataLength, i, b) :- ParseOption(ParseU16, i, b);
    var (accountCount, i, b) :- ParseOption(ParseU8, i, b);
    var (accounts, i, b) :- ParseVec(sz.account, MAX_RULE_CONSTRAINTS, AccountParser(sz), i, b);
    var (arguments, i, b) :- ParseVec(sz.constraint_, MAX_RULE_CONSTRAINTS, ParseConstraint, i, b);
    Parsed(InstructionRule(selector, dataLength, accountCount, accounts, arguments), i, b)
  }

  function RuleParser(sz: Sizes): Parser<InstructionRule> {
    (input, budget: nat) => ParseRule(sz, input, budget)
  }

  function ParseAccess(sz: Sizes, input: seq<byte>, budget: nat): Parse<ProgramAccess> {
    var (tag, i, b) :- ParseU8(input, budget);
    if tag == 0 then Parsed(Denied, i, b)
    else if tag == 1 then Parsed(AllInstructions, i, b)
    else if tag == 2 then
      var (rules, i, b) :- ParseVec(sz.rule, MAX_INSTRUCTION_RULES, RuleParser(sz), i, b);
      Parsed(Restricted(rules), i, b)
    else Failed
  }

  function ParsePermission(sz: Sizes, input: seq<byte>, budget: nat): Parse<ProgramPermission> {
    var (programId, i, b) :- ParseKey(input, budget);
    var (access, i, b) :- ParseAccess(sz, i, b);
    Parsed(ProgramPermission(programId, access), i, b)
  }

  function PermissionParser(sz: Sizes): Parser<ProgramPermission> {
    (input, budget: nat) => ParsePermission(sz, input, budget)
  }

  function ParsePermissions(sz: Sizes, input: seq<byte>, budget: nat): Parse<seq<ProgramPermission>> {
    ParseVec(sz.permission, MAX_PROGRAM_PERMISSIONS, PermissionParser(sz), input, budget)
  }
}
