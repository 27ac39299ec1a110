/**
 * Base64 and base64url (RFC 4648, sections 4 and 5). Text is a sequence of character codes. A text
 * and its bytes are related by the integers they denote in bases 64 and 256.
 */
module Base64 {
  import opened Bytes
  import opened Wrappers
  import opened Arith

  datatype Variant = Std | Url

  type Sextet = x: int | 0 <= x < 64

  const PAD: nat := 0x3d

  /** The alphabet, letter by letter. */
  function Letter(v: Variant, i: Sextet): (c: nat)
    ensures c < 128 && c != PAD
  {
    if i < 26 then 65 + i
    else if i < 52 then 97 + (i - 26)
    else if i < 62 then 48 + (i - 52)
    else if i == 62 then (if v.Std? then 43 else 45)
    else (if v.Std? then 47 else 95)
  }

  /** The position of a letter, or -1. */
  function Lookup(v: Variant, c: nat): (r: int)
    ensures -1 <= r < 64
  {
    if 65 <= c <= 90 then c - 65
    else if 97 <= c <= 122 then c - 97 + 26
    else if 48 <= c <= 57 then c - 48 + 52
    else if c == (if v.Std? then 43 else 45) then 62
    else if c == (if v.Std? then 47 else 95) then 63
    else -1
  }

  lemma {:induction false} LettersInvert(v: Variant, i: Sextet, c: nat)
    ensures Lookup(v, Letter(v, i)) == i
    ensures Lookup(v, c) >= 0 ==> Letter(v, Lookup(v, c)) == c
  {
  }

  lemma {:induction false} LookupHigh(v: Variant, c: nat)
    ensures c >= 128 ==> Lookup(v, c) == -1
  {
  }

  /** The 128-entry table built from the alphabet string. */
  method BuildLookup(v: Variant) returns (table: array<int>)
    ensures fresh(table) && table.Length == 128
    ensures forall c :: 0 <= c < 128 ==> table[c] == Lookup(v, c)
  {
    table := new int[128](_ => -1);
    for i := 0 to 64
      invariant forall c :: 0 <= c < 128 ==> table[c] == if Lookup(v, c) < i then Lookup(v, c) else -1
    {
      forall c | 0 <= c < 128
        ensures Lookup(v, c) == i <==> c == Letter(v, i)
      {
        LettersInvert(v, i, c);
      }
      table[Letter(v, i)] := i;
    }
  }

  // ---------------------------------------------------------------- positional values

  function Value(base: nat, digits: seq<nat>): nat {
    if digits == [] then 0
    else Value(base, digits[..|digits| - 1]) * base + digits[|digits| - 1]
  }

  lemma {:induction false} ValuePush(base: nat, digits: seq<nat>, d: nat)
    ensures Value(base, digits + [d]) == Value(base, digits) * base + d
  {
    assert (digits + [d])[..|digits|] == digits;
  }

  /** Equally long digit strings with the same value are the same. */
  lemma {:induction false} ValueUnique(base: nat, a: seq<nat>, b: seq<nat>)
    requires base > 0 && |a| == |b|
    requires (forall i :: 0 <= i < |a| ==> a[i] < base) && (forall i :: 0 <= i < |b| ==> b[i] < base)
    requires Value(base, a) == Value(base, b)
    ensures a == b
  {
    if a != [] {
      var n := |a| - 1;
      LastDigit(base, Value(base, a[..n]), a[n], Value(base, b[..n]), b[n]);
      ValueUnique(base, a[..n], b[..n]);
      assert a == a[..n] + [a[n]] && b == b[..n] + [b[n]];
    }
  }

  lemma {:induction false} LastDigit(base: nat, x: nat, d: nat, y: nat, e: nat)
    requires d < base && e < base && x * base + d == y * base + e
    ensures x == y && d == e
  {
    if x < y {
      Strictly(x, y, base);
    } else if y < x {
      Strictly(y, x, base);
    }
  }

  // ---------------------------------------------------------------- what a text decodes to

  function Pads(text: seq<nat>): nat {
    if text == [] || text[|text| - 1] != PAD then 0 else 1 + Pads(text[..|text| - 1])
  }

  /** The text without its trailing padding. */
  function Stripped(text: seq<nat>): seq<nat> {
    if text == [] || text[|text| - 1] != PAD then text else Stripped(text[..|text| - 1])
  }

  predicate AllLetters(v: Variant, text: seq<nat>) {
    forall i :: 0 <= i < |text| ==> Lookup(v, text[i]) >= 0
  }

  function Sextets(v: Variant, text: seq<nat>): (s: seq<nat>)
    requires AllLetters(v, text)
    ensures |s| == |text| && forall i :: 0 <= i < |s| ==> s[i] == Lookup(v, text[i])
  {
    seq(|text|, i requires 0 <= i < |text| => Lookup(v, text[i]))
  }

  /** What is left of a group when its whole bytes are taken out, as a power of two. */
  function SpareBits(n: nat): nat {
    if n % 4 == 2 then 16 else if n % 4 == 3 then 4 else 1
  }

  /** `out` is what `text` stands for: as many whole bytes as its bits hold, and no stray bit. */
  ghost predicate DecodesTo(v: Variant, text: seq<nat>, maxBytes: nat, out: seq<byte>) {
    var body := Stripped(text);
    && Pads(text) <= 2
    && |body| % 4 != 1
    && |out| == |body| * 3 / 4
    && |out| <= maxBytes
    && AllLetters(v, body)
    && Value(64, Sextets(v, body)) == Value(256, out) * SpareBits(|body|)
  }

  // ---------------------------------------------------------------- 32-bit arithmetic

  /** JavaScript's conversion to a signed 32-bit integer, which every bit operator applies. */
  function ToInt32(x: int): int {
    (x + 0x8000_0000) % 0x1_0000_0000 - 0x8000_0000
  }

  /** `(buffer << 6) | val`: the shift leaves six clear low bits for `val`. */
  function Shift6(buffer: int, val: Sextet): int {
    ToInt32(buffer * 64) + val
  }

  lemma {:induction false} ShiftKeepsLowBits(buffer: int, val: Sextet)
    ensures Shift6(buffer, val) % 4096 == 64 * (buffer % 64) + val
  {
    var x := buffer * 64;
    var m := (x + 0x8000_0000) / 0x1_0000_0000;
    var q := buffer / 64;
    DivMod(Shift6(buffer, val), 4096, q - m * 0x10_0000, 64 * (buffer % 64) + val);
  }

  lemma {:induction false} Nested(x: int, w: int, k: int)
    requires w > 0 && k > 0
    ensures (x / w) % k == (x % (w * k)) / w && x % w == (x % (w * k)) % w
  {
    var wk := w * k;
    Positive(w, k);
    var q, r := x / wk, x % wk;
    var s, u := r / w, r % w;
    assert x == w * (k * q + s) + u by {
      assert w * (k * q + s) == wk * q + w * s;
    }
    DivMod(x, w, k * q + s, u);
    assert s < k by {
      if s >= k {
        Scaled(k, s, w);
      }
    }
    DivMod(k * q + s, k, q, s);
  }

  lemma {:induction false} Positive(w: int, k: int)
    requires w > 0 && k > 0
    ensures w * k > 0
  {
  }

  lemma {:induction false} Scaled(a: int, b: int, w: int)
    requires a <= b && w > 0
    ensures w * a <= w * b
  {
    assert w * (b - a) >= 0;
  }

  /** Bits held back before the letter at position i. */
  function BitsAt(i: nat): nat {
    if i % 4 == 0 then 0 else if i % 4 == 1 then 6 else if i % 4 == 2 then 4 else 2
  }

  function Pow2(bits: nat): nat {
    if bits == 0 then 1 else if bits == 2 then 4 else if bits == 4 then 16 else 64
  }

  // Shifting in one letter neither loses nor invents a bit, though high bits wrap away: one lemma for
  // each position in a group of four letters.

  lemma {:induction false} FirstLetter(buffer: int, val: Sextet)
    ensures Shift6(buffer, val) % 64 == val
  {
    hide Shift6;
    ShiftKeepsLowBits(buffer, val);
    Nested(Shift6(buffer, val), 64, 64);
    DivMod(64 * (buffer % 64) + val, 64, buffer % 64, val);
  }

  lemma {:induction false} SecondLetter(buffer: int, val: Sextet)
    ensures var next := Shift6(buffer, val);
            64 * (buffer % 64) + val == next / 16 % 256 * 16 + next % 16
  {
    hide Shift6;
    ShiftKeepsLowBits(buffer, val);
    Nested(Shift6(buffer, val), 16, 256);
  }

  lemma {:induction false} ThirdLetter(buffer: int, val: Sextet)
    ensures var next := Shift6(buffer, val);
            64 * (buffer % 16) + val == next / 4 % 256 * 4 + next % 4
  {
    hide Shift6;
    ShiftKeepsLowBits(buffer, val);
    Nested(Shift6(buffer, val), 1024, 4);
    Nested(Shift6(buffer, val), 4, 256);
    Nested(buffer, 16, 4);
    DivMod(64 * (buffer % 64) + val, 1024, buffer % 64 / 16, 64 * (buffer % 16) + val);
  }

  lemma {:induction false} FourthLetter(buffer: int, val: Sextet)
    ensures Shift6(buffer, val) % 256 == 64 * (buffer % 4) + val
  {
    hide Shift6;
    ShiftKeepsLowBits(buffer, val);
    Nested(Shift6(buffer, val), 256, 16);
    Nested(buffer, 4, 16);
    DivMod(64 * (buffer % 64) + val, 256, buffer % 64 / 4, 64 * (buffer % 4) + val);
  }

  // ---------------------------------------------------------------- decoding as it runs

  method StripPadding(input: seq<nat>) returns (end: Option<nat>)
    ensures end.Some? <==> Pads(input) <= 2
    ensures end.Some? ==> end.value <= |input| && input[..end.value] == Stripped(input)
  {
    var n := |input|;
    var pad := 0;
    assert input[..n] == input;
    while n > 0 && input[n - 1] == PAD
      invariant n <= |input| && pad <= 2
      invariant Pads(input) == pad + Pads(input[..n]) && Stripped(input) == Stripped(input[..n])
    {
      assert input[..n][..n - 1] == input[..n - 1];
      n := n - 1;
      pad := pad + 1;
      if pad > 2 {
        return None;
      }
    }
    end := Some(n);
  }

  /** The loop state after i letters: bytes written plus bits held back make up the value so far. */
  ghost predicate Holds(v: Variant, body: seq<nat>, i: nat, out: seq<byte>, buffer: int, bits: nat)
    requires i <= |body| && AllLetters(v, body[..i])
  {
    && bits == BitsAt(i)
    && |out| == i * 3 / 4
    && Value(64, Sextets(v, body[..i])) == Value(256, out) * Pow2(bits) + buffer % Pow2(bits)
  }

  /** One letter more: what the bytes and the held bits denote together. */
  lemma {:induction false} ValueNext(bits: nat, x: nat, o: nat, buffer: int, val: Sextet)
    requires bits in {0, 2, 4, 6} && x == o * Pow2(bits) + buffer % Pow2(bits)
    ensures var next := Shift6(buffer, val);
            && (bits == 0 ==> x * 64 + val == o * 64 + next % 64)
            && (bits == 6 ==> x * 64 + val == (o * 256 + next / 16 % 256) * 16 + next % 16)
            && (bits == 4 ==> x * 64 + val == (o * 256 + next / 4 % 256) * 4 + next % 4)
            && (bits == 2 ==> x * 64 + val == o * 256 + next % 256)
  {
    hide Shift6;
    if bits == 0 {
      FirstLetter(buffer, val);
    } else if bits == 6 {
      SecondLetter(buffer, val);
    } else if bits == 4 {
      ThirdLetter(buffer, val);
    } else {
      FourthLetter(buffer, val);
    }
  }

  lemma {:induction false} Phases(i: nat)
    ensures BitsAt(i) in {0, 2, 4, 6}
    ensures BitsAt(i) == 0 ==> BitsAt(i + 1) == 6 && (i + 1) * 3 / 4 == i * 3 / 4
    ensures BitsAt(i) > 0 ==> BitsAt(i + 1) == BitsAt(i) - 2 && (i + 1) * 3 / 4 == i * 3 / 4 + 1
  {
  }

  lemma {:induction false} HoldsNext(v: Variant, body: seq<nat>, i: nat, out: seq<byte>, buffer: int, bits: nat)
    requires i < |body| && AllLetters(v, body[..i]) && Lookup(v, body[i]) >= 0
    requires Holds(v, body, i, out, buffer, bits)
    ensures AllLetters(v, body[..i + 1])
    ensures var next := Shift6(buffer, Lookup(v, body[i]));
            if bits == 0 then Holds(v, body, i + 1, out, next, 6)
            else Holds(v, body, i + 1, out + [next / Pow2(bits - 2) % 256], next, bits - 2)
  {
    hide Shift6, Lookup, Value, BitsAt;
    var val := Lookup(v, body[i]);
    var next := Shift6(buffer, val);
    var x := Value(64, Sextets(v, body[..i]));
    assert Sextets(v, body[..i + 1]) == Sextets(v, body[..i]) + [val];
    ValuePush(64, Sextets(v, body[..i]), val);
    Phases(i);
    ValueNext(bits, x, Value(256, out), buffer, val);
    if bits > 0 {
      ValuePush(256, out, next / Pow2(bits - 2) % 256);
    }
  }

  lemma {:induction false} ApproxGrows(i: nat, len: nat)
    requires i <= len
    ensures i * 3 / 4 <= len * 3 / 4
  {
  }

  /** The decoder accepts exactly the texts that stand for some bytes, and returns those. */
  method Base64ToBytes(input: seq<nat>, maxBytes: nat, v: Variant) returns (r: Option<seq<byte>>)
    ensures r.Some? ==> DecodesTo(v, input, maxBytes, r.value)
    ensures r.None? ==> forall out :: !DecodesTo(v, input, maxBytes, out)
  {
    hide Shift6, Lookup, Value, Stripped, Pads;
    var end := StripPadding(input);
    if end.None? {
      return None;
    }
    var len := end.value;
    ghost var body := Stripped(input);
    if len * 3 / 4 > maxBytes || len % 4 == 1 {
      return None;
    }
    var lookup := BuildLookup(v);
    EmptyValue();
    var out: seq<byte> := [];
    var buffer := 0;
    var bits := 0;
    for i := 0 to len
      modifies {}
      invariant AllLetters(v, body[..i]) && Holds(v, body, i, out, buffer, bits)
    {
      var code := input[i];
      assert body[i] == code;
      LookupHigh(v, code);
      var val := if code < 128 then lookup[code] else -1;
      assert val == Lookup(v, code);
      if val < 0 {
        return None;
      }
      HoldsNext(v, body, i, out, buffer, bits);
      buffer := Shift6(buffer, val);
      bits := bits + 6;
      if bits >= 8 {
        bits := bits - 8;
        out := out + [buffer / Pow2(bits) % 256];
        ApproxGrows(i + 1, len);
        assert |out| <= maxBytes;
      }
    }
    assert body[..len] == body;
    if bits > 0 && buffer % Pow2(bits) != 0 {
      forall any: seq<byte> | DecodesTo(v, input, maxBytes, any)
        ensures false
      {
        StrayBits(Value(256, out), buffer % Pow2(bits), Value(256, any), Pow2(bits));
      }
      return None;
    }
    r := Some(out);
  }

  lemma {:induction false} StrayBits(x: nat, p: nat, y: nat, k: nat)
    requires 0 < p < k
    ensures x * k + p != y * k
  {
    if x * k + p == y * k {
      LastDigit(k, x, p, y, 0);
    }
  }

  // ---------------------------------------------------------------- encoding as it runs

  /** Three bytes regrouped as four six-bit digits. */
  function Group(b0: byte, b1: byte, b2: byte): (s: seq<Sextet>)
    ensures |s| == 4
  {
    [b0 / 4, b0 % 4 * 16 + b1 / 16, b1 % 16 * 4 + b2 / 64, b2 % 64]
  }

  /** The digits of whole three-byte groups, then of the one or two bytes left. */
  function Digits(b: seq<byte>): (s: seq<Sextet>)
    decreases |b|
  {
    var n := |b|;
    if n == 0 then []
    else if n % 3 == 1 then Digits(b[..n - 1]) + Group(b[n - 1], 0, 0)[..2]
    else if n % 3 == 2 then Digits(b[..n - 2]) + Group(b[n - 2], b[n - 1], 0)[..3]
    else Digits(b[..n - 3]) + Group(b[n - 3], b[n - 2], b[n - 1])
  }

  function Letters(v: Variant, s: seq<Sextet>): (t: seq<nat>)
    ensures |t| == |s| && forall i :: 0 <= i < |t| ==> t[i] == Letter(v, s[i])
  {
    seq(|s|, i requires 0 <= i < |s| => Letter(v, s[i]))
  }

  function Padding(v: Variant, n: nat): seq<nat> {
    if v.Url? || n % 3 == 0 then [] else if n % 3 == 1 then [PAD, PAD] else [PAD]
  }

  function Encoded(v: Variant, b: seq<byte>): seq<nat> {
    Letters(v, Digits(b)) + Padding(v, |b|)
  }

  lemma {:induction false} LettersAppend(v: Variant, a: seq<Sextet>, b: seq<Sextet>)
    ensures Letters(v, a + b) == Letters(v, a) + Letters(v, b)
  {
  }

  lemma {:induction false} DigitsOfGroup(b: seq<byte>, i: nat)
    requires i + 3 <= |b| && i % 3 == 0
    ensures Digits(b[..i + 3]) == Digits(b[..i]) + Group(b[i], b[i + 1], b[i + 2])
  {
    hide Group;
    assert b[..i + 3][..i] == b[..i];
  }

  lemma {:induction false} DigitsOfRest(b: seq<byte>, i: nat)
    requires i <= |b| && i % 3 == 0
    ensures i + 1 == |b| ==> Digits(b) == Digits(b[..i]) + Group(b[i], 0, 0)[..2]
    ensures i + 2 == |b| ==> Digits(b) == Digits(b[..i]) + Group(b[i], b[i + 1], 0)[..3]
  {
    hide Group;
  }

  method BytesToBase64(bytes: seq<byte>, v: Variant) returns (text: seq<nat>)
    ensures text == Encoded(v, bytes)
  {
    hide Letters, Digits;
    text := [];
    var i := 0;
    assert Letters(v, Digits(bytes[..0])) == [] by { NoDigits(v, bytes[..0]); }
    while i + 3 <= |bytes|
      invariant i <= |bytes| && i % 3 == 0
      invariant text == Letters(v, Digits(bytes[..i]))
    {
      var group := GroupOf(bytes[i], bytes[i + 1], bytes[i + 2]);
      DigitsOfGroup(bytes, i);
      LettersAppend(v, Digits(bytes[..i]), group);
      text := text + Letters(v, group);
      i := i + 3;
    }
    var rem := |bytes| - i;
    DigitsOfRest(bytes, i);
    if rem == 1 {
      var group := GroupOf(bytes[i], 0, 0);
      LettersAppend(v, Digits(bytes[..i]), group[..2]);
      text := text + Letters(v, group[..2]);
      if v.Std? {
        text := text + [PAD, PAD];
      }
    } else if rem == 2 {
      var group := GroupOf(bytes[i], bytes[i + 1], 0);
      LettersAppend(v, Digits(bytes[..i]), group[..3]);
      text := text + Letters(v, group[..3]);
      if v.Std? {
        text := text + [PAD];
      }
    } else {
      assert bytes[..i] == bytes;
    }
  }

  lemma {:induction false} NoDigits(v: Variant, b: seq<byte>)
    requires b == []
    ensures Letters(v, Digits(b)) == []
  {
  }

  /** The four six-bit fields of `b0 << 16 | b1 << 8 | b2`. */
  method GroupOf(b0: byte, b1: byte, b2: byte) returns (s: seq<Sextet>)
    ensures s == Group(b0, b1, b2)
  {
    var n := b0 * 0x1_0000 + b1 * 0x100 + b2;
    DivMod(n, 0x4_0000, b0 / 4, b0 % 4 * 0x1_0000 + b1 * 0x100 + b2);
    DivMod(n, 0x1000, 16 * b0 + b1 / 16, b1 % 16 * 0x100 + b2);
    DivMod(16 * b0 + b1 / 16, 64, b0 / 4, b0 % 4 * 16 + b1 / 16);
    DivMod(n, 64, 1024 * b0 + 4 * b1 + b2 / 64, b2 % 64);
    DivMod(1024 * b0 + 4 * b1 + b2 / 64, 64, 16 * b0 + b1 / 16, b1 % 16 * 4 + b2 / 64);
    var s0: Sextet := n / 0x4_0000 % 64;
    var s1: Sextet := n / 0x1000 % 64;
    var s2: Sextet := n / 64 % 64;
    var s3: Sextet := n % 64;
    s := [s0, s1, s2, s3];
  }

  // ---------------------------------------------------------------- encoding and decoding agree

  lemma {:induction false} ValuePush2(base: nat, d: seq<nat>, x: nat, y: nat)
    ensures Value(base, d + [x, y]) == (Value(base, d) * base + x) * base + y
  {
    assert d + [x, y] == (d + [x]) + [y];
    ValuePush(base, d, x);
    ValuePush(base, d + [x], y);
  }

  lemma {:induction false} ValuePush3(base: nat, d: seq<nat>, x: nat, y: nat, z: nat)
    ensures Value(base, d + [x, y, z]) == ((Value(base, d) * base + x) * base + y) * base + z
  {
    assert d + [x, y, z] == (d + [x, y]) + [z];
    ValuePush2(base, d, x, y);
    ValuePush(base, d + [x, y], z);
  }

  lemma {:induction false} ValuePush4(base: nat, d: seq<nat>, x: nat, y: nat, z: nat, w: nat)
    ensures Value(base, d + [x, y, z, w]) == (((Value(base, d) * base + x) * base + y) * base + z) * base + w
  {
    assert d + [x, y, z, w] == (d + [x, y, z]) + [w];
    ValuePush3(base, d, x, y, z);
    ValuePush(base, d + [x, y, z], w);
  }

  lemma {:induction false} GroupValues(x: nat, b0: byte, b1: byte, b2: byte)
    ensures (x * 64 + b0 / 4) * 64 + b0 % 4 * 16 == (x * 256 + b0) * 16
    ensures ((x * 64 + b0 / 4) * 64 + (b0 % 4 * 16 + b1 / 16)) * 64 + b1 % 16 * 4 == ((x * 256 + b0) * 256 + b1) * 4
    ensures (((x * 64 + b0 / 4) * 64 + (b0 % 4 * 16 + b1 / 16)) * 64 + (b1 % 16 * 4 + b2 / 64)) * 64 + b2 % 64
         == ((x * 256 + b0) * 256 + b1) * 256 + b2
  {
    assert b0 == 4 * (b0 / 4) + b0 % 4;
    assert b1 == 16 * (b1 / 16) + b1 % 16;
    assert b2 == 64 * (b2 / 64) + b2 % 64;
  }

  /** One, two or three more bytes, as digits and as bytes. */
  lemma {:induction false} GroupPush(d: seq<nat>, front: seq<byte>, b0: byte, b1: byte, b2: byte)
    requires Value(64, d) == Value(256, front)
    ensures Value(64, d + Group(b0, 0, 0)[..2]) == Value(256, front + [b0]) * 16
    ensures Value(64, d + Group(b0, b1, 0)[..3]) == Value(256, front + [b0, b1]) * 4
    ensures Value(64, d + Group(b0, b1, b2)) == Value(256, front + [b0, b1, b2])
  {
    hide Value;
    GroupValues(Value(256, front), b0, 0, 0);
    ValuePush(256, front, b0);
    ValuePush2(64, d, b0 / 4, b0 % 4 * 16);
    assert Group(b0, 0, 0)[..2] == [b0 / 4, b0 % 4 * 16];
    GroupValues(Value(256, front), b0, b1, 0);
    ValuePush2(256, front, b0, b1);
    ValuePush3(64, d, b0 / 4, b0 % 4 * 16 + b1 / 16, b1 % 16 * 4);
    assert Group(b0, b1, 0)[..3] == [b0 / 4, b0 % 4 * 16 + b1 / 16, b1 % 16 * 4];
    GroupValues(Value(256, front), b0, b1, b2);
    ValuePush3(256, front, b0, b1, b2);
    ValuePush4(64, d, b0 / 4, b0 % 4 * 16 + b1 / 16, b1 % 16 * 4 + b2 / 64, b2 % 64);
  }

  lemma {:induction false} WholeGroups(b: seq<byte>)
    requires |b| % 3 == 0
    ensures |Digits(b)| == |b| / 3 * 4 && Value(64, Digits(b)) == Value(256, b)
    decreases |b|
  {
    hide Value, Group;
    if b == [] {
      EmptyValue();
    } else {
      var n := |b|;
      WholeGroups(b[..n - 3]);
      GroupPush(Digits(b[..n - 3]), b[..n - 3], b[n - 3], b[n - 2], b[n - 1]);
      assert b == b[..n - 3] + [b[n - 3], b[n - 2], b[n - 1]];
    }
  }

  lemma {:induction false} SpareCounts(k: nat)
    ensures SpareBits(4 * k) == 1 && (4 * k) % 4 == 0 && 4 * k * 3 / 4 == 3 * k
    ensures SpareBits(4 * k + 2) == 16 && (4 * k + 2) % 4 == 2 && (4 * k + 2) * 3 / 4 == 3 * k + 1
    ensures SpareBits(4 * k + 3) == 4 && (4 * k + 3) % 4 == 3 && (4 * k + 3) * 3 / 4 == 3 * k + 2
  {
  }

  /** The digits denote the bytes' integer, shifted left by the spare bits. */
  lemma {:induction false} DigitsValue(b: seq<byte>)
    ensures |Digits(b)| % 4 != 1 && |b| == |Digits(b)| * 3 / 4
    ensures Value(64, Digits(b)) == Value(256, b) * SpareBits(|Digits(b)|)
  {
    hide Value, Group, SpareBits;
    var n := |b|;
    SpareCounts(n / 3);
    if n % 3 == 0 {
      WholeGroups(b);
    } else if n % 3 == 1 {
      WholeGroups(b[..n - 1]);
      GroupPush(Digits(b[..n - 1]), b[..n - 1], b[n - 1], 0, 0);
      assert b == b[..n - 1] + [b[n - 1]];
    } else {
      WholeGroups(b[..n - 2]);
      GroupPush(Digits(b[..n - 2]), b[..n - 2], b[n - 2], b[n - 1], 0);
      assert b == b[..n - 2] + [b[n - 2], b[n - 1]];
    }
  }

  lemma {:induction false} EmptyValue()
    ensures Value(64, []) == 0 && Value(256, []) == 0
  {
  }

  lemma {:induction false} StripEncoded(v: Variant, b: seq<byte>)
    ensures Pads(Encoded(v, b)) == |Padding(v, |b|)| <= 2
    ensures Stripped(Encoded(v, b)) == Letters(v, Digits(b))
  {
    hide Digits;
    var body := Letters(v, Digits(b));
    assert Pads(body) == 0 && Stripped(body) == body;
    var one := body + [PAD];
    assert one[..|body|] == body;
    assert Pads(one) == 1 && Stripped(one) == body;
    var two := body + [PAD, PAD];
    assert two[..|one|] == one;
    assert Pads(two) == 2 && Stripped(two) == body;
    assert body + [] == body;
  }

  lemma {:induction false} SextetsOfLetters(v: Variant, s: seq<Sextet>)
    ensures AllLetters(v, Letters(v, s)) && Sextets(v, Letters(v, s)) == s
  {
    hide Letter, Lookup;
    forall i | 0 <= i < |s|
      ensures Lookup(v, Letters(v, s)[i]) == s[i]
    {
      LettersInvert(v, s[i], 0);
    }
  }

  /** Every byte string within the cap is what its encoding decodes to. */
  lemma {:induction false} EncodedDecodes(v: Variant, b: seq<byte>, maxBytes: nat)
    requires |b| <= maxBytes
    ensures DecodesTo(v, Encoded(v, b), maxBytes, b)
  {
    hide Digits, Encoded, Letters, Value;
    StripEncoded(v, b);
    SextetsOfLetters(v, Digits(b));
    DigitsValue(b);
  }

  /** A text decodes to at most one byte string. */
  lemma {:induction false} DecodesUniquely(v: Variant, text: seq<nat>, maxBytes: nat, a: seq<byte>, b: seq<byte>)
    requires DecodesTo(v, text, maxBytes, a) && DecodesTo(v, text, maxBytes, b)
    ensures a == b
  {
    ValueUnique(256, a, b);
  }

  /** Every accepted text is the encoding of its bytes, up to trailing padding. */
  lemma {:induction false} AcceptedIsEncoding(v: Variant, text: seq<nat>, maxBytes: nat, out: seq<byte>)
    requires DecodesTo(v, text, maxBytes, out)
    ensures Stripped(text) == Stripped(Encoded(v, out))
  {
    hide Digits, Encoded, Value, Lookup, Letter;
    var body := Stripped(text);
    StripEncoded(v, out);
    DigitsValue(out);
    SameLength(|body|, |Digits(out)|, |out|);
    var s := Sextets(v, body);
    ValueUnique(64, s, Digits(out));
    forall i | 0 <= i < |body|
      ensures body[i] == Letters(v, Digits(out))[i]
    {
      LettersInvert(v, s[i], body[i]);
    }
  }

  lemma {:induction false} SameLength(a: nat, b: nat, n: nat)
    requires a % 4 != 1 && b % 4 != 1 && n == a * 3 / 4 && n == b * 3 / 4
    ensures a == b
  {
  }

  // ---------------------------------------------------------------- constant-time comparison

  /** Exclusive-or of two bytes through eight-bit vectors, as the comparison accumulates it. */
  method BytesEqual(a: seq<bv8>, b: seq<bv8>) returns (equal: bool)
    ensures equal <==> a == b
  {
    if |a| != |b| {
      return false;
    }
    var diff: bv8 := 0;
    for i := 0 to |a|
      invariant diff == 0 <==> a[..i] == b[..i]
    {
      XorIsZero(diff, a[i], b[i]);
      assert a[..i + 1] == a[..i] + [a[i]] && b[..i + 1] == b[..i] + [b[i]];
      diff := diff | (a[i] ^ b[i]);
    }
    assert a[..|a|] == a && b[..|b|] == b;
    equal := diff == 0;
  }

  lemma {:induction false} XorIsZero(d: bv8, x: bv8, y: bv8)
    ensures d | (x ^ y) == 0 <==> d == 0 && x == y
  {
  }
}
