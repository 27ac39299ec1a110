/**
 * The bounded decoder inverts the Borsh encoder. `Inverts` is proved once for vectors and
 * options, and then carried through every layer of the permission language.
 */
module PolicyRoundTrip {
  import opened Bytes
  import opened Wrappers
  import opened PolicyTypes
  import opened PolicyCodec

  /** What a successful parse says about its input: the encoding of the value came off the front. */
  ghost predicate Explains<T>(r: Parse<T>, input: seq<byte>, budget: nat,
                              enc: T -> seq<byte>, heap: T -> nat, ok: T -> bool)
  {
    r.Parsed? ==> ok(r.value) && input == enc(r.value) + r.rest && budget == r.budget + heap(r.value)
  }

  /** `p` reads exactly the values in `ok`, consuming their encoding and charging their heap. */
  ghost predicate Inverts<T(!new)>(p: Parser<T>, enc: T -> seq<byte>, heap: T -> nat, ok: T -> bool) {
    && (forall input, budget {:trigger p(input, budget)} :: Explains(p(input, budget), input, budget, enc, heap, ok))
    && (forall v, rest, budget {:trigger p(enc(v) + rest, budget)} ::
          ok(v) && heap(v) <= budget ==> p(enc(v) + rest, budget) == Parsed(v, rest, budget - heap(v)))
    && (forall v {:trigger enc(v)} :: ok(v) ==> enc(v) != [])
  }

  ghost predicate VecOk<T>(max: nat, ok: T -> bool, xs: seq<T>) {
    |xs| <= max && forall x :: x in xs ==> ok(x)
  }

  // ---------------------------------------------------------------- byte strings

  lemma {:induction false} Tail(x: byte, t: seq<byte>)
    ensures ([x] + t)[0] == x && ([x] + t)[1..] == t
  {
  }

  lemma {:induction false} Front(a: seq<byte>, t: seq<byte>)
    ensures (a + t)[..|a|] == a && (a + t)[|a|..] == t
  {
  }

  lemma {:induction false} Regroup5(a: seq<byte>, b: seq<byte>, c: seq<byte>, d: seq<byte>, e: seq<byte>, rest: seq<byte>)
    ensures (a + (b + (c + (d + e)))) + rest == a + (b + (c + (d + (e + rest))))
  {
    Regroup(a, b + (c + (d + e)), rest);
    Regroup(b, c + (d + e), rest);
    Regroup(c, d + e, rest);
    Regroup(d, e, rest);
  }

  // ---------------------------------------------------------------- vectors

  lemma {:induction false} ItemsExplained<T(!new)>(count: nat, p: Parser<T>, enc: T -> seq<byte>, heap: T -> nat,
                                             ok: T -> bool, input: seq<byte>, budget: nat)
    requires Inverts(p, enc, heap, ok)
    requires ParseItems(count, p, input, budget).Parsed?
    ensures var r := ParseItems(count, p, input, budget);
            && (forall x :: x in r.value ==> ok(x))
            && input == EncodeItems(enc, r.value) + r.rest
            && budget == r.budget + Sum(r.value, heap)
  {
    if count > 0 {
      var first := p(input, budget);
      assert Explains(first, input, budget, enc, heap, ok);
      ItemsExplained(count - 1, p, enc, heap, ok, first.rest, first.budget);
      var tail := ParseItems(count - 1, p, first.rest, first.budget);
      var r := ParseItems(count, p, input, budget);
      assert r.value[0] == first.value && r.value[1..] == tail.value;
      assert input == enc(first.value) + (EncodeItems(enc, tail.value) + tail.rest);
    }
  }

  lemma {:induction false} ItemsParsed<T(!new)>(p: Parser<T>, enc: T -> seq<byte>, heap: T -> nat, ok: T -> bool,
                                          xs: seq<T>, rest: seq<byte>, budget: nat)
    requires Inverts(p, enc, heap, ok)
    requires forall x :: x in xs ==> ok(x)
    requires Sum(xs, heap) <= budget
    ensures |EncodeItems(enc, xs)| >= |xs|
    ensures ParseItems(|xs|, p, EncodeItems(enc, xs) + rest, budget) == Parsed(xs, rest, budget - Sum(xs, heap))
  {
    if xs == [] {
      assert EncodeItems(enc, xs) + rest == rest;
    } else {
      var tail := EncodeItems(enc, xs[1..]) + rest;
      assert EncodeItems(enc, xs) + rest == enc(xs[0]) + tail;
      assert p(enc(xs[0]) + tail, budget) == Parsed(xs[0], tail, budget - heap(xs[0]));
      ItemsParsed(p, enc, heap, ok, xs[1..], rest, budget - heap(xs[0]));
      assert enc(xs[0]) != [];
      assert xs == [xs[0]] + xs[1..];
    }
  }

  lemma {:induction false} VecExplained<T(!new)>(size: nat, max: nat, p: Parser<T>, enc: T -> seq<byte>, heap: T -> nat, ok: T -> bool,
                        input: seq<byte>, budget: nat)
    requires Inverts(p, enc, heap, ok)
    ensures var r := ParseVec(size, max, p, input, budget);
            r.Parsed? ==>
              && VecOk(max, ok, r.value)
              && input == EncodeVec(enc, r.value) + r.rest
              && budget == r.budget + VecHeap(size, heap, r.value)
  {
    hide Inverts;
    var r := ParseVec(size, max, p, input, budget);
    if r.Parsed? {
      var n := ParseCount(size, max, input, budget);
      ItemsExplained(n.value, p, enc, heap, ok, n.rest, n.budget);
      assert |r.value| == n.value;
      LeValueRoundTrip(input[..4]);
      assert input == Le(n.value, 4) + n.rest;
      Regroup(Le(n.value, 4), EncodeItems(enc, r.value), r.rest);
    }
  }

  lemma {:induction false} VecParsed<T(!new)>(size: nat, max: nat, p: Parser<T>, enc: T -> seq<byte>, heap: T -> nat, ok: T -> bool,
                     xs: seq<T>, rest: seq<byte>, budget: nat)
    requires Inverts(p, enc, heap, ok)
    requires max < 0x1_0000_0000 && VecOk(max, ok, xs) && VecHeap(size, heap, xs) <= budget
    ensures ParseVec(size, max, p, EncodeVec(enc, xs) + rest, budget)
            == Parsed(xs, rest, budget - VecHeap(size, heap, xs))
  {
    hide Inverts;
    var input := EncodeVec(enc, xs) + rest;
    var body := EncodeItems(enc, xs) + rest;
    Pow256Values();
    LeRoundTrip(|xs|, 4);
    assert input[..4] == Le(|xs|, 4) && input[4..] == body;
    ItemsParsed(p, enc, heap, ok, xs, rest, budget - |xs| * size);
  }

  // ---------------------------------------------------------------- primitives

  function NoHeap<T>(v: T): nat { 0 }

  ghost predicate Always<T>(v: T) { true }

  lemma {:induction false} U8Inverts()
    ensures Inverts(ParseU8, EncodeU8, NoHeap, Always)
  {
    forall v: u8, rest, budget
      ensures ParseU8(EncodeU8(v) + rest, budget) == Parsed(v, rest, budget)
    {
      assert ([v] + rest)[1..] == rest;
    }
  }

  lemma {:induction false} U16Inverts()
    ensures Inverts(ParseU16, EncodeU16, NoHeap, Always)
  {
    forall input, budget
      ensures Explains(ParseU16(input, budget), input, budget, EncodeU16, NoHeap, Always)
    {
      if |input| >= 2 {
        LeValueRoundTrip(input[..2]);
        assert input == input[..2] + input[2..];
      }
    }
    forall v: u16, rest, budget
      ensures ParseU16(EncodeU16(v) + rest, budget) == Parsed(v, rest, budget)
    {
      Pow256Values();
      LeRoundTrip(v, 2);
      var input := EncodeU16(v) + rest;
      assert input[..2] == Le(v, 2) && input[2..] == rest;
    }
  }

  lemma {:induction false} KeyInverts()
    ensures Inverts(ParseKey, EncodeKey, NoHeap, Always)
  {
    forall input, budget
      ensures Explains(ParseKey(input, budget), input, budget, EncodeKey, NoHeap, Always)
    {
      if |input| >= 32 {
        assert input == input[..32] + input[32..];
      }
    }
    forall v: Pubkey, rest, budget
      ensures ParseKey(EncodeKey(v) + rest, budget) == Parsed(v, rest, budget)
    {
      var input := v + rest;
      assert input[..32] == v && input[32..] == rest;
    }
  }

  lemma {:induction false} BoolInverts()
    ensures Inverts(ParseBool, EncodeBool, NoHeap, Always)
  {
    forall input, budget
      ensures Explains(ParseBool(input, budget), input, budget, EncodeBool, NoHeap, Always)
    {
      if input != [] {
        assert input == [input[0]] + input[1..];
      }
    }
    forall v, rest, budget
      ensures ParseBool(EncodeBool(v) + rest, budget) == Parsed(v, rest, budget)
    {
      assert (EncodeBool(v) + rest)[1..] == rest;
    }
  }

  lemma {:induction false} OptionExplained<T(!new)>(p: Parser<T>, enc: T -> seq<byte>, input: seq<byte>, budget: nat)
    requires Inverts(p, enc, NoHeap, Always)
    ensures var r := ParseOption(p, input, budget);
            r.Parsed? ==> input == EncodeOption(enc, r.value) + r.rest && r.budget == budget
  {
    if input != [] {
      assert input == [input[0]] + input[1..];
      var inner := p(input[1..], budget);
      assert Explains(inner, input[1..], budget, enc, NoHeap, Always);
    }
  }

  lemma {:induction false} OptionParsed<T(!new)>(p: Parser<T>, enc: T -> seq<byte>, o: Option<T>, rest: seq<byte>, budget: nat)
    requires Inverts(p, enc, NoHeap, Always)
    ensures ParseOption(p, EncodeOption(enc, o) + rest, budget) == Parsed(o, rest, budget)
  {
    var input := EncodeOption(enc, o) + rest;
    match o
    case None =>
      assert input[1..] == rest;
    case Some(v) =>
      assert input[1..] == enc(v) + rest;
      assert p(enc(v) + rest, budget) == Parsed(v, rest, budget - NoHeap(v));
  }

  lemma {:induction false} SumNoHeap<T>(xs: seq<T>)
    ensures Sum(xs, NoHeap) == 0
  {
    if xs != [] {
      SumNoHeap(xs[1..]);
    }
  }

  lemma {:induction false} BytesExplained(input: seq<byte>, budget: nat)
    ensures var r := ParseBytes(input, budget);
            r.Parsed? ==>
              && |r.value| <= MAX_MATCH_BYTES
              && input == EncodeBytes(r.value) + r.rest
              && budget == r.budget + |r.value|
  {
    U8Inverts();
    VecExplained(1, MAX_MATCH_BYTES, ParseU8, EncodeU8, NoHeap, Always, input, budget);
    var r := ParseBytes(input, budget);
    if r.Parsed? {
      SumNoHeap(r.value);
    }
  }

  lemma {:induction false} BytesParsed(b: seq<byte>, rest: seq<byte>, budget: nat)
    requires |b| <= MAX_MATCH_BYTES && |b| <= budget
    ensures ParseBytes(EncodeBytes(b) + rest, budget) == Parsed(b, rest, budget - |b|)
  {
    U8Inverts();
    SumNoHeap(b);
    VecParsed(1, MAX_MATCH_BYTES, ParseU8, EncodeU8, NoHeap, Always, b, rest, budget);
  }

  // ---------------------------------------------------------------- data constraints

  ghost predicate ConstraintOk(c: DataConstraint) {
    c.test.BytesEqual? ==> |c.test.bytes| <= MAX_MATCH_BYTES
  }

  lemma {:induction false} WidthAndComparison(input: seq<byte>, budget: nat, w: NumericWidth, cmp: Comparison, rest: seq<byte>)
    ensures var r := ParseWidth(input, budget);
            r.Parsed? ==> input == [WidthTag(r.value)] + r.rest && r.budget == budget
    ensures var r := ParseComparison(input, budget);
            r.Parsed? ==> input == [ComparisonTag(r.value)] + r.rest && r.budget == budget
    ensures ParseWidth([WidthTag(w)] + rest, budget) == Parsed(w, rest, budget)
    ensures ParseComparison([ComparisonTag(cmp)] + rest, budget) == Parsed(cmp, rest, budget)
  {
    assert ([WidthTag(w)] + rest)[1..] == rest;
    assert ([ComparisonTag(cmp)] + rest)[1..] == rest;
    if input != [] {
      assert input == [input[0]] + input[1..];
    }
  }

  lemma {:induction false} UnsignedLayout(w: NumericWidth, cmp: Comparison, v: seq<byte>, rest: seq<byte>)
    ensures ([1] + ([WidthTag(w)] + ([ComparisonTag(cmp)] + v))) + rest
         == [1] + ([WidthTag(w)] + ([ComparisonTag(cmp)] + (v + rest)))
  {
    Regroup([1], [WidthTag(w)] + ([ComparisonTag(cmp)] + v), rest);
    Regroup([WidthTag(w)], [ComparisonTag(cmp)] + v, rest);
    Regroup([ComparisonTag(cmp)], v, rest);
  }

  lemma {:induction false} UnsignedExplained(input: seq<byte>, budget: nat)
    ensures var r := ParseUnsigned(input, budget);
            r.Parsed? ==> r.value.Unsigned? && [1] + input == EncodePredicate(r.value) + r.rest && budget == r.budget
  {
    hide ParseWidth, ParseComparison;
    var width := ParseWidth(input, budget);
    WidthAndComparison(input, budget, U8, Equal, []);
    if width.Parsed? {
      var comparison := ParseComparison(width.rest, budget);
      WidthAndComparison(width.rest, budget, U8, Equal, []);
      if comparison.Parsed? && |comparison.rest| >= 8 {
        var tail := comparison.rest;
        LeValueRoundTrip(tail[..8]);
        assert tail == tail[..8] + tail[8..];
        UnsignedLayout(width.value, comparison.value, tail[..8], tail[8..]);
      }
    }
  }

  lemma {:induction false} PredicateExplained(input: seq<byte>, budget: nat)
    ensures var r := ParsePredicate(input, budget);
            r.Parsed? ==>
              && ConstraintOk(DataConstraint(0, r.value))
              && input == EncodePredicate(r.value) + r.rest
              && budget == r.budget + ConstraintHeap(DataConstraint(0, r.value))
  {
    if input != [] && input[0] == 0 {
      BytesExplained(input[1..], budget);
      var bytes := ParseBytes(input[1..], budget);
      if bytes.Parsed? {
        assert input == [0] + input[1..];
        Regroup([0], EncodeBytes(bytes.value), bytes.rest);
      }
    } else if input != [] && input[0] == 1 {
      UnsignedExplained(input[1..], budget);
      assert input == [1] + input[1..];
    }
  }

  lemma {:induction false} PredicateParsed(t: DataPredicate, rest: seq<byte>, budget: nat)
    requires ConstraintOk(DataConstraint(0, t)) && ConstraintHeap(DataConstraint(0, t)) <= budget
    ensures ParsePredicate(EncodePredicate(t) + rest, budget)
            == Parsed(t, rest, budget - ConstraintHeap(DataConstraint(0, t)))
  {
    var input := EncodePredicate(t) + rest;
    match t
    case BytesEqual(bytes) =>
      Regroup([0], EncodeBytes(bytes), rest);
      Tail(0, EncodeBytes(bytes) + rest);
      BytesParsed(bytes, rest, budget);
    case Unsigned(w, cmp, v) =>
      var tail := Le(v, 8) + rest;
      UnsignedLayout(w, cmp, Le(v, 8), rest);
      Tail(1, [WidthTag(w)] + ([ComparisonTag(cmp)] + tail));
      WidthAndComparison([], budget, w, cmp, [ComparisonTag(cmp)] + tail);
      WidthAndComparison([], budget, w, cmp, tail);
      U64RoundTrip(v);
      Front(Le(v, 8), rest);
  }

  lemma {:induction false} ConstraintExplained(input: seq<byte>, budget: nat)
    ensures Explains(ParseConstraint(input, budget), input, budget, EncodeConstraint, ConstraintHeap, ConstraintOk)
  {
    var offset := ParseU16(input, budget);
    assert Explains(offset, input, budget, EncodeU16, NoHeap, Always) by {
      U16Inverts();
    }
    if offset.Parsed? {
      PredicateExplained(offset.rest, offset.budget);
      var r := ParsePredicate(offset.rest, offset.budget);
      if r.Parsed? {
        assert input == EncodeU16(offset.value) + (EncodePredicate(r.value) + r.rest);
      }
    }
  }

  lemma {:induction false} ConstraintParsed(c: DataConstraint, rest: seq<byte>, budget: nat)
    requires ConstraintOk(c) && ConstraintHeap(c) <= budget
    ensures ParseConstraint(EncodeConstraint(c) + rest, budget) == Parsed(c, rest, budget - ConstraintHeap(c))
  {
    var tail := EncodePredicate(c.test) + rest;
    assert EncodeConstraint(c) + rest == EncodeU16(c.offset) + tail;
    assert ParseU16(EncodeU16(c.offset) + tail, budget) == Parsed(c.offset, tail, budget - NoHeap(c.offset)) by {
      U16Inverts();
    }
    PredicateParsed(c.test, rest, budget);
  }

  lemma {:induction false} ConstraintInverts()
    ensures Inverts(ParseConstraint, EncodeConstraint, ConstraintHeap, ConstraintOk)
  {
    forall input, budget
      ensures Explains(ParseConstraint(input, budget), input, budget, EncodeConstraint, ConstraintHeap, ConstraintOk)
    {
      ConstraintExplained(input, budget);
    }
    forall c, rest, budget | ConstraintOk(c) && ConstraintHeap(c) <= budget
      ensures ParseConstraint(EncodeConstraint(c) + rest, budget) == Parsed(c, rest, budget - ConstraintHeap(c))
    {
      ConstraintParsed(c, rest, budget);
    }
  }

  /** A vector of data constraints, as accounts and rules both carry. */
  lemma {:induction false} ConstraintsExplained(sz: Sizes, input: seq<byte>, budget: nat)
    ensures var r := ParseVec(sz.constraint_, MAX_RULE_CONSTRAINTS, ParseConstraint, input, budget);
            r.Parsed? ==>
              && VecOk(MAX_RULE_CONSTRAINTS, ConstraintOk, r.value)
              && input == EncodeVec(EncodeConstraint, r.value) + r.rest
              && budget == r.budget + VecHeap(sz.constraint_, ConstraintHeap, r.value)
  {
    ConstraintInverts();
    VecExplained(sz.constraint_, MAX_RULE_CONSTRAINTS, ParseConstraint, EncodeConstraint, ConstraintHeap,
                 ConstraintOk, input, budget);
  }

  lemma {:induction false} ConstraintsParsed(sz: Sizes, xs: seq<DataConstraint>, rest: seq<byte>, budget: nat)
    requires VecOk(MAX_RULE_CONSTRAINTS, ConstraintOk, xs) && VecHeap(sz.constraint_, ConstraintHeap, xs) <= budget
    ensures ParseVec(sz.constraint_, MAX_RULE_CONSTRAINTS, ParseConstraint, EncodeVec(EncodeConstraint, xs) + rest, budget)
            == Parsed(xs, rest, budget - VecHeap(sz.constraint_, ConstraintHeap, xs))
  {
    ConstraintInverts();
    VecParsed(sz.constraint_, MAX_RULE_CONSTRAINTS, ParseConstraint, EncodeConstraint, ConstraintHeap,
              ConstraintOk, xs, rest, budget);
  }

  // ---------------------------------------------------------------- account constraints

  ghost predicate AccountOk(a: AccountConstraint) {
    VecOk(MAX_RULE_CONSTRAINTS, ConstraintOk, a.data)
  }

  lemma {:induction false} KeyConstraintExplained(input: seq<byte>, budget: nat)
    ensures var r := ParseKeyConstraint(input, budget);
            r.Parsed? ==> input == EncodeKeyConstraint(r.value) + r.rest && r.budget == budget
  {
    if input != [] {
      assert input == [input[0]] + input[1..];
      KeyInverts();
      assert Explains(ParseKey(input[1..], budget), input[1..], budget, EncodeKey, NoHeap, Always);
    }
  }

  lemma {:induction false} KeyConstraintParsed(k: AccountKeyConstraint, rest: seq<byte>, budget: nat)
    ensures ParseKeyConstraint(EncodeKeyConstraint(k) + rest, budget) == Parsed(k, rest, budget)
  {
    var input := EncodeKeyConstraint(k) + rest;
    match k
    case Address(key) =>
      KeyInverts();
      assert input[1..] == EncodeKey(key) + rest;
      assert ParseKey(EncodeKey(key) + rest, budget) == Parsed(key, rest, budget - NoHeap(key));
    case _ =>
      assert input[1..] == rest;
  }

  lemma {:induction false} AccountExplained(sz: Sizes, input: seq<byte>, budget: nat)
    ensures Explains(ParseAccount(sz, input, budget), input, budget, EncodeAccount, AccountHeapIn(sz), AccountOk)
  {
    var r := ParseAccount(sz, input, budget);
    if r.Parsed? {
      assert input == [input[0]] + input[1..];
      KeyConstraintExplained(input[1..], budget);
      var key := ParseKeyConstraint(input[1..], budget);
      KeyInverts();
      BoolInverts();
      OptionExplained(ParseKey, EncodeKey, key.rest, key.budget);
      var owner := ParseOption(ParseKey, key.rest, key.budget);
      OptionExplained(ParseBool, EncodeBool, owner.rest, owner.budget);
      var isSigner := ParseOption(ParseBool, owner.rest, owner.budget);
      OptionExplained(ParseBool, EncodeBool, isSigner.rest, isSigner.budget);
      var isWritable := ParseOption(ParseBool, isSigner.rest, isSigner.budget);
      ConstraintsExplained(sz, isWritable.rest, isWritable.budget);
      AccountLayout(r.value, r.rest);
    }
  }

  /** The encoding of an account constraint, field by field. */
  lemma {:induction false} AccountLayout(a: AccountConstraint, rest: seq<byte>)
    ensures EncodeAccount(a) + rest
         == [a.index] + (EncodeKeyConstraint(a.key) + (EncodeOption(EncodeKey, a.owner)
            + (EncodeOption(EncodeBool, a.isSigner) + (EncodeOption(EncodeBool, a.isWritable)
            + (EncodeVec(EncodeConstraint, a.data) + rest)))))
  {
    var tail := EncodeKeyConstraint(a.key) + (EncodeOption(EncodeKey, a.owner)
                + (EncodeOption(EncodeBool, a.isSigner) + (EncodeOption(EncodeBool, a.isWritable)
                + EncodeVec(EncodeConstraint, a.data))));
    Regroup([a.index], tail, rest);
    Regroup5(EncodeKeyConstraint(a.key), EncodeOption(EncodeKey, a.owner), EncodeOption(EncodeBool, a.isSigner),
             EncodeOption(EncodeBool, a.isWritable), EncodeVec(EncodeConstraint, a.data), rest);
  }

  lemma {:induction false} AccountParsed(sz: Sizes, a: AccountConstraint, rest: seq<byte>, budget: nat)
    requires AccountOk(a) && AccountHeap(sz, a) <= budget
    ensures ParseAccount(sz, EncodeAccount(a) + rest, budget) == Parsed(a, rest, budget - AccountHeap(sz, a))
  {
    AccountLayout(a, rest);
    var t5 := EncodeVec(EncodeConstraint, a.data) + rest;
    var t4 := EncodeOption(EncodeBool, a.isWritable) + t5;
    var t3 := EncodeOption(EncodeBool, a.isSigner) + t4;
    var t2 := EncodeOption(EncodeKey, a.owner) + t3;
    var t1 := EncodeKeyConstraint(a.key) + t2;
    assert ([a.index] + t1)[1..] == t1;
    KeyInverts();
    BoolInverts();
    KeyConstraintParsed(a.key, t2, budget);
    OptionParsed(ParseKey, EncodeKey, a.owner, t3, budget);
    OptionParsed(ParseBool, EncodeBool, a.isSigner, t4, budget);
    OptionParsed(ParseBool, EncodeBool, a.isWritable, t5, budget);
    ConstraintsParsed(sz, a.data, rest, budget);
  }

  lemma {:induction false} AccountInverts(sz: Sizes)
    ensures Inverts(AccountParser(sz), EncodeAccount, AccountHeapIn(sz), AccountOk)
  {
    forall input, budget
      ensures Explains(AccountParser(sz)(input, budget), input, budget, EncodeAccount, AccountHeapIn(sz), AccountOk)
    {
      AccountExplained(sz, input, budget);
    }
    forall a, rest, budget | AccountOk(a) && AccountHeapIn(sz)(a) <= budget
      ensures AccountParser(sz)(EncodeAccount(a) + rest, budget) == Parsed(a, rest, budget - AccountHeapIn(sz)(a))
    {
      AccountParsed(sz, a, rest, budget);
    }
  }

  lemma {:induction false} AccountsExplained(sz: Sizes, input: seq<byte>, budget: nat)
    ensures var r := ParseVec(sz.account, MAX_RULE_CONSTRAINTS, AccountParser(sz), input, budget);
            r.Parsed? ==>
              && VecOk(MAX_RULE_CONSTRAINTS, AccountOk, r.value)
              && input == EncodeVec(EncodeAccount, r.value) + r.rest
              && budget == r.budget + VecHeap(sz.account, AccountHeapIn(sz), r.value)
  {
    AccountInverts(sz);
    VecExplained(sz.account, MAX_RULE_CONSTRAINTS, AccountParser(sz), EncodeAccount, AccountHeapIn(sz), AccountOk,
                 input, budget);
  }

  lemma {:induction false} AccountsParsed(sz: Sizes, xs: seq<AccountConstraint>, rest: seq<byte>, budget: nat)
    requires VecOk(MAX_RULE_CONSTRAINTS, AccountOk, xs) && VecHeap(sz.account, AccountHeapIn(sz), xs) <= budget
    ensures ParseVec(sz.account, MAX_RULE_CONSTRAINTS, AccountParser(sz), EncodeVec(EncodeAccount, xs) + rest, budget)
            == Parsed(xs, rest, budget - VecHeap(sz.account, AccountHeapIn(sz), xs))
  {
    AccountInverts(sz);
    VecParsed(sz.account, MAX_RULE_CONSTRAINTS, AccountParser(sz), EncodeAccount, AccountHeapIn(sz), AccountOk,
              xs, rest, budget);
  }

  // ---------------------------------------------------------------- rules

  ghost predicate RuleOk(r: InstructionRule) {
    && |r.selector| <= MAX_MATCH_BYTES
    && VecOk(MAX_RULE_CONSTRAINTS, AccountOk, r.accounts)
    && VecOk(MAX_RULE_CONSTRAINTS, ConstraintOk, r.arguments)
  }

  lemma {:induction false} RuleLayout(r: InstructionRule, rest: seq<byte>)
    ensures EncodeRule(r) + rest
         == EncodeBytes(r.selector) + (EncodeOption(EncodeU16, r.dataLength)
            + (EncodeOption(EncodeU8, r.accountCount) + (EncodeVec(EncodeAccount, r.accounts)
            + (EncodeVec(EncodeConstraint, r.arguments) + rest))))
  {
    Regroup5(EncodeBytes(r.selector), EncodeOption(EncodeU16, r.dataLength), EncodeOption(EncodeU8, r.accountCount),
             EncodeVec(EncodeAccount, r.accounts), EncodeVec(EncodeConstraint, r.arguments), rest);
  }

  lemma {:induction false} RuleExplained(sz: Sizes, input: seq<byte>, budget: nat)
    ensures Explains(ParseRule(sz, input, budget), input, budget, EncodeRule, RuleHeapIn(sz), RuleOk)
  {
    var r := ParseRule(sz, input, budget);
    if r.Parsed? {
      U8Inverts();
      U16Inverts();
      BytesExplained(input, budget);
      var selector := ParseBytes(input, budget);
      OptionExplained(ParseU16, EncodeU16, selector.rest, selector.budget);
      var length := ParseOption(ParseU16, selector.rest, selector.budget);
      OptionExplained(ParseU8, EncodeU8, length.rest, length.budget);
      var count := ParseOption(ParseU8, length.rest, length.budget);
      AccountsExplained(sz, count.rest, count.budget);
      var accounts := ParseVec(sz.account, MAX_RULE_CONSTRAINTS, AccountParser(sz), count.rest, count.budget);
      ConstraintsExplained(sz, accounts.rest, accounts.budget);
      RuleLayout(r.value, r.rest);
    }
  }

  lemma {:induction false} RuleParsed(sz: Sizes, r: InstructionRule, rest: seq<byte>, budget: nat)
    requires RuleOk(r) && RuleHeap(sz, r) <= budget
    ensures ParseRule(sz, EncodeRule(r) + rest, budget) == Parsed(r, rest, budget - RuleHeap(sz, r))
  {
    hide ParseVec, ParseBytes, ParseOption, EncodeVec, EncodeBytes;
    var t4 := EncodeVec(EncodeConstraint, r.arguments) + rest;
    var t3 := EncodeVec(EncodeAccount, r.accounts) + t4;
    var t2 := EncodeOption(EncodeU8, r.accountCount) + t3;
    var t1 := EncodeOption(EncodeU16, r.dataLength) + t2;
    var b1 := budget - |r.selector|;
    BytesParsed(r.selector, t1, budget);
    LengthParsed(r.dataLength, t2, b1);
    CountParsed(r.accountCount, t3, b1);
    AccountsParsed(sz, r.accounts, t4, b1);
    var b2 := b1 - VecHeap(sz.account, AccountHeapIn(sz), r.accounts);
    ConstraintsParsed(sz, r.arguments, rest, b2);
    RuleLayout(r, rest);
  }

  lemma {:induction false} LengthParsed(o: Option<u16>, rest: seq<byte>, budget: nat)
    ensures ParseOption(ParseU16, EncodeOption(EncodeU16, o) + rest, budget) == Parsed(o, rest, budget)
  {
    U16Inverts();
    OptionParsed(ParseU16, EncodeU16, o, rest, budget);
  }

  lemma {:induction false} CountParsed(o: Option<u8>, rest: seq<byte>, budget: nat)
    ensures ParseOption(ParseU8, EncodeOption(EncodeU8, o) + rest, budget) == Parsed(o, rest, budget)
  {
    U8Inverts();
    OptionParsed(ParseU8, EncodeU8, o, rest, budget);
  }

  lemma {:induction false} RuleInverts(sz: Sizes)
    ensures Inverts(RuleParser(sz), EncodeRule, RuleHeapIn(sz), RuleOk)
  {
    hide ParseRule, RuleHeap;
    forall input, budget
      ensures Explains(RuleParser(sz)(input, budget), input, budget, EncodeRule, RuleHeapIn(sz), RuleOk)
    {
      RuleExplained(sz, input, budget);
    }
    forall r, rest, budget | RuleOk(r) && RuleHeapIn(sz)(r) <= budget
      ensures RuleParser(sz)(EncodeRule(r) + rest, budget) == Parsed(r, rest, budget - RuleHeapIn(sz)(r))
    {
      RuleParsed(sz, r, rest, budget);
    }
  }

  // ---------------------------------------------------------------- permissions

  ghost predicate PermissionOk(p: ProgramPermission) {
    p.access.Restricted? ==> VecOk(MAX_INSTRUCTION_RULES, RuleOk, p.access.rules)
  }

  ghost predicate PermissionsOk(ps: seq<ProgramPermission>) {
    VecOk(MAX_PROGRAM_PERMISSIONS, PermissionOk, ps)
  }

  lemma {:induction false} RulesExplained(sz: Sizes, input: seq<byte>, budget: nat)
    ensures var r := ParseVec(sz.rule, MAX_INSTRUCTION_RULES, RuleParser(sz), input, budget);
            r.Parsed? ==>
              && VecOk(MAX_INSTRUCTION_RULES, RuleOk, r.value)
              && input == EncodeVec(EncodeRule, r.value) + r.rest
              && budget == r.budget + VecHeap(sz.rule, RuleHeapIn(sz), r.value)
  {
    RuleInverts(sz);
    VecExplained(sz.rule, MAX_INSTRUCTION_RULES, RuleParser(sz), EncodeRule, RuleHeapIn(sz), RuleOk, input, budget);
  }

  lemma {:induction false} RulesParsed(sz: Sizes, xs: seq<InstructionRule>, rest: seq<byte>, budget: nat)
    requires VecOk(MAX_INSTRUCTION_RULES, RuleOk, xs) && VecHeap(sz.rule, RuleHeapIn(sz), xs) <= budget
    ensures ParseVec(sz.rule, MAX_INSTRUCTION_RULES, RuleParser(sz), EncodeVec(EncodeRule, xs) + rest, budget)
            == Parsed(xs, rest, budget - VecHeap(sz.rule, RuleHeapIn(sz), xs))
  {
    RuleInverts(sz);
    VecParsed(sz.rule, MAX_INSTRUCTION_RULES, RuleParser(sz), EncodeRule, RuleHeapIn(sz), RuleOk, xs, rest, budget);
  }

  lemma {:induction false} AccessExplained(sz: Sizes, key: Pubkey, input: seq<byte>, budget: nat)
    ensures var r := ParseAccess(sz, input, budget);
            r.Parsed? ==>
              && PermissionOk(ProgramPermission(key, r.value))
              && input == EncodeAccess(r.value) + r.rest
              && budget == r.budget + PermissionHeap(sz, ProgramPermission(key, r.value))
  {
    hide ParseVec, EncodeVec, VecOk, VecHeap;
    if input != [] {
      assert input == [input[0]] + input[1..];
      if input[0] == 2 {
        RulesExplained(sz, input[1..], budget);
        var rules := ParseVec(sz.rule, MAX_INSTRUCTION_RULES, RuleParser(sz), input[1..], budget);
        if rules.Parsed? {
          Regroup([2], EncodeVec(EncodeRule, rules.value), rules.rest);
        }
      }
    }
  }

  lemma {:induction false} AccessParsed(sz: Sizes, p: ProgramPermission, rest: seq<byte>, budget: nat)
    requires PermissionOk(p) && PermissionHeap(sz, p) <= budget
    ensures ParseAccess(sz, EncodeAccess(p.access) + rest, budget)
            == Parsed(p.access, rest, budget - PermissionHeap(sz, p))
  {
    match p.access
    case Restricted(rules) =>
      Regroup([2], EncodeVec(EncodeRule, rules), rest);
      Tail(2, EncodeVec(EncodeRule, rules) + rest);
      RulesParsed(sz, rules, rest, budget);
    case Denied =>
      Tail(0, rest);
    case AllInstructions =>
      Tail(1, rest);
  }

  lemma {:induction false} PermissionExplained(sz: Sizes, input: seq<byte>, budget: nat)
    ensures Explains(ParsePermission(sz, input, budget), input, budget,
                     EncodePermission, PermissionHeapIn(sz), PermissionOk)
  {
    var key := ParseKey(input, budget);
    assert Explains(key, input, budget, EncodeKey, NoHeap, Always) by {
      KeyInverts();
    }
    if key.Parsed? {
      AccessExplained(sz, key.value, key.rest, key.budget);
      var access := ParseAccess(sz, key.rest, key.budget);
      if access.Parsed? {
        Regroup(key.value, EncodeAccess(access.value), access.rest);
      }
    }
  }

  lemma {:induction false} PermissionParsed(sz: Sizes, p: ProgramPermission, rest: seq<byte>, budget: nat)
    requires PermissionOk(p) && PermissionHeap(sz, p) <= budget
    ensures ParsePermission(sz, EncodePermission(p) + rest, budget) == Parsed(p, rest, budget - PermissionHeap(sz, p))
  {
    var tail := EncodeAccess(p.access) + rest;
    Regroup(p.programId, EncodeAccess(p.access), rest);
    Front(p.programId, tail);
    AccessParsed(sz, p, rest, budget);
  }

  lemma {:induction false} PermissionInverts(sz: Sizes)
    ensures Inverts(PermissionParser(sz), EncodePermission, PermissionHeapIn(sz), PermissionOk)
  {
    hide ParsePermission, PermissionHeap;
    forall input, budget
      ensures Explains(PermissionParser(sz)(input, budget), input, budget,
                       EncodePermission, PermissionHeapIn(sz), PermissionOk)
    {
      PermissionExplained(sz, input, budget);
    }
    forall p, rest, budget | PermissionOk(p) && PermissionHeapIn(sz)(p) <= budget
      ensures PermissionParser(sz)(EncodePermission(p) + rest, budget)
              == Parsed(p, rest, budget - PermissionHeapIn(sz)(p))
    {
      PermissionParsed(sz, p, rest, budget);
    }
  }

  /** A list the decoder reads re-encodes to the bytes it came from, and cost exactly its heap. */
  lemma {:induction false} PermissionsExplained(sz: Sizes, input: seq<byte>, budget: nat)
    ensures var r := ParsePermissions(sz, input, budget);
            r.Parsed? ==>
              && PermissionsOk(r.value)
              && input == EncodePermissions(r.value) + r.rest
              && budget == r.budget + PermissionsHeap(sz, r.value)
  {
    PermissionInverts(sz);
    VecExplained(sz.permission, MAX_PROGRAM_PERMISSIONS, PermissionParser(sz), EncodePermission,
                 PermissionHeapIn(sz), PermissionOk, input, budget);
  }

  /** The encoding of any list within the decoder's bounds and budget is read back whole. */
  lemma {:induction false} PermissionsParsed(sz: Sizes, ps: seq<ProgramPermission>, rest: seq<byte>, budget: nat)
    requires PermissionsOk(ps) && PermissionsHeap(sz, ps) <= budget
    ensures ParsePermissions(sz, EncodePermissions(ps) + rest, budget)
            == Parsed(ps, rest, budget - PermissionsHeap(sz, ps))
  {
    PermissionInverts(sz);
    VecParsed(sz.permission, MAX_PROGRAM_PERMISSIONS, PermissionParser(sz), EncodePermission,
              PermissionHeapIn(sz), PermissionOk, ps, rest, budget);
  }
}
