/** The instruction-permission language an owner stores with the authority account. */
module PolicyTypes {
  import opened Bytes
  import opened Wrappers

  const MAX_PERMISSION_BYTES := 4096
  const MAX_PERMISSION_HEAP_BYTES := 8192
  const MAX_PROGRAM_PERMISSIONS := 16
  const MAX_INSTRUCTION_RULES := 16
  const MAX_RULE_CONSTRAINTS := 16
  const MAX_MATCH_BYTES := 64

  datatype ProgramPermission = ProgramPermission(programId: Pubkey, access: ProgramAccess)

  datatype ProgramAccess = Denied | AllInstructions | Restricted(rules: seq<InstructionRule>)

  datatype InstructionRule = InstructionRule(
    selector: seq<byte>,
    dataLength: Option<u16>,
    accountCount: Option<u8>,
    accounts: seq<AccountConstraint>,
    arguments: seq<DataConstraint>)

  datatype AccountKeyConstraint = Any | Address(key: Pubkey) | Wallet

  datatype AccountConstraint = AccountConstraint(
    index: u8,
    key: AccountKeyConstraint,
    owner: Option<Pubkey>,
    isSigner: Option<bool>,
    isWritable: Option<bool>,
    data: seq<DataConstraint>)

  datatype Comparison =
    Equal | NotEqual | LessThan | LessThanOrEqual | GreaterThan | GreaterThanOrEqual

  datatype NumericWidth = U8 | U16 | U32 | U64 {
    function Bytes(): (n: nat)
      ensures n in {1, 2, 4, 8}
    {
      match this
      case U8 => 1
      case U16 => 2
      case U32 => 4
      case U64 => 8
    }
  }

  datatype DataPredicate =
    | BytesEqual(bytes: seq<byte>)
    | Unsigned(width: NumericWidth, comparison: Comparison, value: u64)

  datatype DataConstraint = DataConstraint(offset: u16, test: DataPredicate) {
    function Width(): nat {
      match test
      case BytesEqual(bytes) => |bytes|
      case Unsigned(width, _, _) => width.Bytes()
    }
  }

  /** `size_of` of the in-memory structs; the compiler chooses them, so they stay symbolic. */
  datatype Sizes = Sizes(permission: nat, rule: nat, account: nat, constraint_: nat)

  function Sum<T>(xs: seq<T>, f: T -> nat): nat {
    if xs == [] then 0 else f(xs[0]) + Sum(xs[1..], f)
  }

  /** Bytes a vector of `xs` occupies: its own buffer, then whatever its items own. */
  function VecHeap<T>(size: nat, heap: T -> nat, xs: seq<T>): nat {
    |xs| * size + Sum(xs, heap)
  }

  function ConstraintHeap(c: DataConstraint): nat {
    match c.test
    case BytesEqual(bytes) => |bytes|
    case Unsigned(_, _, _) => 0
  }

  function AccountHeap(sz: Sizes, a: AccountConstraint): nat {
    VecHeap(sz.constraint_, ConstraintHeap, a.data)
  }

  function AccountHeapIn(sz: Sizes): AccountConstraint -> nat {
    a => AccountHeap(sz, a)
  }

  function RuleHeap(sz: Sizes, r: InstructionRule): nat {
    |r.selector|
    + VecHeap(sz.account, AccountHeapIn(sz), r.accounts)
    + VecHeap(sz.constraint_, ConstraintHeap, r.arguments)
  }

  function RuleHeapIn(sz: Sizes): InstructionRule -> nat {
    r => RuleHeap(sz, r)
  }

  function PermissionHeap(sz: Sizes, p: ProgramPermission): nat {
    match p.access
    case Restricted(rules) => VecHeap(sz.rule, RuleHeapIn(sz), rules)
    case _ => 0
  }

  function PermissionHeapIn(sz: Sizes): ProgramPermission -> nat {
    p => PermissionHeap(sz, p)
  }

  /** The heap a whole decoded permission list occupies. */
  function PermissionsHeap(sz: Sizes, ps: seq<ProgramPermission>): nat {
    VecHeap(sz.permission, PermissionHeapIn(sz), ps)
  }
}
