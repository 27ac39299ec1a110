/** Token amounts as decimal text: how the app and the signer print them, and how the app reads them. */
module DecimalAmount {
  import opened Wrappers
  import opened Arith

  datatype AmountError = EnterAmount | TooManyDecimals | NotAnInteger

  /** A mint's decimals are a byte. */
  const MAX_DECIMALS := 255

  // ---------------------------------------------------------------- text

  predicate IsDigit(c: char) {
    '0' <= c <= '9'
  }

  predicate AllDigits(s: string) {
    forall i :: 0 <= i < |s| ==> IsDigit(s[i])
  }

  function Pow10(n: nat): (p: nat)
    ensures p > 0
  {
    if n == 0 then 1 else 10 * Pow10(n - 1)
  }

  function Digit(n: nat): (c: char)
    requires n < 10
    ensures IsDigit(c)
  {
    (n + ('0' as int)) as char
  }

  /** The integer a digit string denotes. */
  function Denotes(s: string): nat
    requires AllDigits(s)
  {
    if s == "" then 0
    else Denotes(s[..|s| - 1]) * 10 + (s[|s| - 1] as int - '0' as int)
  }

  /** `BigInt.prototype.toString`, for a natural number. */
  function Digits(n: nat): (s: string)
    ensures s != "" && AllDigits(s)
  {
    if n < 10 then [Digit(n)] else Digits(n / 10) + [Digit(n % 10)]
  }

  function IntText(n: int): string {
    if n < 0 then "-" + Digits(-n) else Digits(n)
  }

  function Zeros(n: nat): (s: string)
    ensures |s| == n && AllDigits(s)
  {
    seq(n, _ => '0')
  }

  function PadStart(s: string, n: nat): string {
    if |s| >= n then s else Zeros(n - |s|) + s
  }

  function PadEnd(s: string, n: nat): string {
    if |s| >= n then s else s + Zeros(n - |s|)
  }

  /** Without the zeros at the end. */
  function TrimZeros(s: string): (r: string)
    ensures |r| <= |s| && r == s[..|r|]
  {
    if s != "" && s[|s| - 1] == '0' then TrimZeros(s[..|s| - 1]) else s
  }

  /** Without the zeros in front that another digit follows. */
  function StripZeros(s: string): string {
    if |s| >= 2 && s[0] == '0' && IsDigit(s[1]) then StripZeros(s[1..]) else s
  }

  /** White space and line terminators of ECMA-262, sections 12.2 and 12.3. */
  predicate IsSpace(c: char) {
    c == ' ' || '\t' <= c <= '\r' || c == '\U{00A0}' || c == '\U{1680}' || '\U{2000}' <= c <= '\U{200A}'
    || c == '\U{2028}' || c == '\U{2029}' || c == '\U{202F}' || c == '\U{205F}' || c == '\U{3000}' || c == '\U{FEFF}'
  }

  function Trim(s: string): string {
    if s == "" then ""
    else if IsSpace(s[0]) then Trim(s[1..])
    else if IsSpace(s[|s| - 1]) then Trim(s[..|s| - 1])
    else s
  }

  /** The position of the first dot, or the length. */
  function Dot(s: string): (i: nat)
    ensures i <= |s|
    ensures i < |s| ==> s[i] == '.'
    ensures forall k :: 0 <= k < i ==> s[k] != '.'
  {
    if s == "" || s[0] == '.' then 0 else 1 + Dot(s[1..])
  }

  /** `split(".")` */
  function Split(s: string): (parts: seq<string>)
    ensures parts != []
    decreases |s|
  {
    if Dot(s) == |s| then [s] else [s[..Dot(s)]] + Split(s[Dot(s) + 1..])
  }

  // ---------------------------------------------------------------- the three functions

  /** Quotient and remainder of natural numbers. */
  function Quotient(n: nat, base: nat): nat
    requires base > 0
  {
    n / base
  }

  function Remainder(n: nat, base: nat): nat
    requires base > 0
  {
    n % base
  }

  /** The app's form. */
  function FormatTokenAmount(raw: int, decimals: nat): string {
    if raw == 0 then "0"
    else
      var abs := if raw < 0 then -raw else raw;
      var base := Pow10(decimals);
      var whole := Quotient(abs, base);
      var frac := TrimZeros(PadStart(Digits(Remainder(abs, base)), decimals));
      var formatted := if |frac| > 0 then Digits(whole) + "." + frac else Digits(whole);
      if raw < 0 then "-" + formatted else formatted
  }

  /** The signer's form. */
  function FormatUnits(raw: int, decimals: int): string {
    if decimals <= 0 then IntText(raw)
    else
      var abs := if raw < 0 then -raw else raw;
      var base := Pow10(decimals);
      var whole := Quotient(abs, base);
      var frac := TrimZeros(PadStart(Digits(Remainder(abs, base)), decimals));
      var s := if frac != "" then Digits(whole) + "." + frac else Digits(whole);
      if raw < 0 then "-" + s else s
  }

  /** The platform's number parsing: `Number(text) <= 0`, and `BigInt(text)`, which may throw. */
  datatype Platform = Platform(AtMostZero: string -> bool, ParseInteger: string -> Option<int>)

  function UiAmountToRaw(js: Platform, uiAmount: string, decimals: nat): Result<int, AmountError> {
    var trimmed := Trim(uiAmount);
    if trimmed == "" || js.AtMostZero(trimmed) || |Split(trimmed)| > 2 then Err(EnterAmount)
    else
      var parts := Split(trimmed);
      var whole := parts[0];
      var frac := if |parts| > 1 then parts[1] else "";
      if |frac| > decimals then Err(TooManyDecimals)
      else
        var padded := PadEnd(frac, decimals);
        var stripped := StripZeros(whole);
        var wholePart := js.ParseInteger(if stripped == "" then "0" else stripped);
        var fracPart := js.ParseInteger(if padded == "" then "0" else padded);
        if wholePart.None? || fracPart.None? then Err(NotAnInteger)
        else Ok(wholePart.value * Pow10(decimals) + fracPart.value)
  }

  /** The text as the input field keeps it: digits, and the first dot. */
  function Filter(s: string, keepDots: bool): (r: string)
    ensures forall c :: c in r ==> IsDigit(c) || (keepDots && c == '.')
  {
    if s == "" then ""
    else if IsDigit(s[0]) || (keepDots && s[0] == '.') then [s[0]] + Filter(s[1..], keepDots)
    else Filter(s[1..], keepDots)
  }

  function SanitizeDecimalInput(raw: string): string {
    var cleaned := Filter(raw, true);
    var dot := Dot(cleaned);
    if dot == |cleaned| then cleaned
    else cleaned[..dot + 1] + Filter(cleaned[dot + 1..], false)
  }

  // ---------------------------------------------------------------- decimal texts

  function Whole(t: string): string {
    t[..Dot(t)]
  }

  function Fraction(t: string): string {
    if Dot(t) == |t| then "" else t[Dot(t) + 1..]
  }

  /** Digits with at most one dot among them. */
  predicate DecimalText(t: string) {
    AllDigits(Whole(t)) && AllDigits(Fraction(t))
  }

  function AllTheDigits(t: string): (s: string)
    requires DecimalText(t)
    ensures AllDigits(s)
  {
    Whole(t) + Fraction(t)
  }

  /** The platform parses digit strings exactly, and sees the sign of decimals up to 255 places. */
  ghost predicate ParsesDecimals(js: Platform) {
    && !js.AtMostZero(".")
    && (forall t {:trigger js.AtMostZero(t)} ::
          DecimalText(t) && AllTheDigits(t) != "" && |Fraction(t)| <= MAX_DECIMALS ==>
            (js.AtMostZero(t) <==> Denotes(AllTheDigits(t)) == 0))
    && (forall s {:trigger js.ParseInteger(s)} ::
          AllDigits(s) && s != "" ==> js.ParseInteger(s) == Some(Denotes(s)))
  }

  /** The least that a platform parses: decimal texts and nothing else. */
  function DecimalPlatform(): (js: Platform) {
    Platform(t => DecimalText(t) && AllTheDigits(t) != "" && Denotes(AllTheDigits(t)) == 0,
             s => if AllDigits(s) && s != "" then Some(Denotes(s)) else None)
  }

  lemma {:induction false} DecimalPlatformParses()
    ensures ParsesDecimals(DecimalPlatform())
  {
    DotOf("", "");
    assert "" + "." + "" == ".";
  }

  lemma {:induction false} DotOf(w: string, f: string)
    requires AllDigits(w) && AllDigits(f)
    ensures Dot(w) == |w| && Dot(w + "." + f) == |w|
    ensures Whole(w) == w && Fraction(w) == "" && Split(w) == [w]
    ensures Whole(w + "." + f) == w && Fraction(w + "." + f) == f && Split(w + "." + f) == [w, f]
  {
    var t := w + "." + f;
    assert forall k :: 0 <= k < |w| ==> t[k] == w[k];
    assert t[|w|] == '.';
    assert t[..|w|] == w && t[|w| + 1..] == f;
    assert Dot(f) == |f|;
  }

  lemma {:induction false} DecimalTextSplits(t: string)
    requires DecimalText(t)
    ensures |Split(t)| <= 2 && Split(t)[0] == Whole(t)
    ensures Fraction(t) == if |Split(t)| > 1 then Split(t)[1] else ""
  {
    assert Dot(Fraction(t)) == |Fraction(t)|;
  }

  lemma {:induction false} TrimKeeps(t: string)
    requires DecimalText(t)
    ensures Trim(t) == t
  {
    if t != "" {
      var d := Dot(t);
      assert t[0] == if d == 0 then t[d] else Whole(t)[0];
      assert t[|t| - 1] == if d >= |t| - 1 then (if d == |t| then Whole(t)[|t| - 1] else t[d])
                           else Fraction(t)[|t| - d - 2];
    }
  }

  // ---------------------------------------------------------------- digit arithmetic

  lemma {:induction false} DenotesPush(s: string, c: char)
    requires AllDigits(s) && IsDigit(c)
    ensures AllDigits(s + [c]) && Denotes(s + [c]) == Denotes(s) * 10 + (c as int - '0' as int)
  {
    assert (s + [c])[..|s|] == s;
  }

  lemma {:induction false} Pow10Sum(m: nat, n: nat)
    ensures Pow10(m + n) == Pow10(m) * Pow10(n)
  {
    if n > 0 {
      Pow10Sum(m, n - 1);
      assert Pow10(m) * Pow10(n) == 10 * (Pow10(m) * Pow10(n - 1));
    }
  }

  lemma {:induction false} DenotesConcat(s: string, t: string)
    requires AllDigits(s) && AllDigits(t)
    ensures AllDigits(s + t) && Denotes(s + t) == Denotes(s) * Pow10(|t|) + Denotes(t)
  {
    hide Denotes, Pow10;
    EmptyDenotesNothing();
    Pow10One();
    if t == "" {
      assert s + t == s;
    } else {
      var n := |t| - 1;
      DenotesConcat(s, t[..n]);
      assert s + t == (s + t[..n]) + [t[n]] && t == t[..n] + [t[n]];
      DenotesPush(s + t[..n], t[n]);
      DenotesPush(t[..n], t[n]);
      Pow10Sum(n, 1);
      Associate(Denotes(s), Pow10(n), 10);
    }
  }

  lemma {:induction false} Pow10One()
    ensures Pow10(0) == 1 && Pow10(1) == 10
  {
  }

  lemma {:induction false} DenotesZeros(n: nat)
    ensures Denotes(Zeros(n)) == 0
  {
    if n > 0 {
      DenotesZeros(n - 1);
      assert Zeros(n)[..n - 1] == Zeros(n - 1);
    }
  }

  lemma {:induction false} DenotesBelow(s: string)
    requires AllDigits(s)
    ensures Denotes(s) < Pow10(|s|)
  {
    if s != "" {
      DenotesBelow(s[..|s| - 1]);
    }
  }

  lemma {:induction false} DigitsDenote(n: nat)
    ensures Denotes(Digits(n)) == n
    ensures n > 0 ==> Digits(n)[0] != '0'
  {
    if n < 10 {
      DenotesPush("", Digit(n));
      assert "" + [Digit(n)] == [Digit(n)];
    } else {
      DigitsDenote(n / 10);
      DenotesPush(Digits(n / 10), Digit(n % 10));
    }
  }

  lemma {:induction false} DigitsFit(n: nat, d: nat)
    requires n < Pow10(d) && d > 0
    ensures |Digits(n)| <= d
  {
    if n >= 10 {
      assert n / 10 < Pow10(d - 1);
      DigitsFit(n / 10, d - 1);
    }
  }

  /** Digit strings of one length are determined by what they denote. */
  lemma {:induction false} DenotesInjective(s: string, t: string)
    requires AllDigits(s) && AllDigits(t) && |s| == |t| && Denotes(s) == Denotes(t)
    ensures s == t
  {
    if s != "" {
      var n := |s| - 1;
      DivMod(Denotes(s), 10, Denotes(s[..n]), s[n] as int - '0' as int);
      DivMod(Denotes(t), 10, Denotes(t[..n]), t[n] as int - '0' as int);
      DenotesInjective(s[..n], t[..n]);
      assert s == s[..n] + [s[n]] && t == t[..n] + [t[n]];
    }
  }

  lemma {:induction false} PaddedDenotes(n: nat, d: nat)
    requires n < Pow10(d) && d > 0
    ensures var p := PadStart(Digits(n), d);
            AllDigits(p) && |p| == d && Denotes(p) == n
  {
    hide Denotes, Pow10, Digits;
    DigitsFit(n, d);
    DigitsDenote(n);
    var z := Zeros(d - |Digits(n)|);
    DenotesZeros(d - |Digits(n)|);
    DenotesConcat(z, Digits(n));
    assert Denotes(z) * Pow10(|Digits(n)|) == 0;
    assert z == "" ==> z + Digits(n) == Digits(n);
  }

  lemma {:induction false} TrimmedPadsBack(s: string)
    requires AllDigits(s)
    ensures AllDigits(TrimZeros(s)) && PadEnd(TrimZeros(s), |s|) == s
  {
    if s != "" && s[|s| - 1] == '0' {
      var n := |s| - 1;
      TrimmedPadsBack(s[..n]);
      var r := TrimZeros(s[..n]);
      assert s[..n] == r + Zeros(n - |r|);
      assert s == s[..n] + ['0'];
      assert Zeros(|s| - |r|) == Zeros(n - |r|) + ['0'];
      assert r + Zeros(|s| - |r|) == (r + Zeros(n - |r|)) + ['0'];
    }
  }

  lemma {:induction false} PaddedTrims(f: string, d: nat)
    requires AllDigits(f) && |f| <= d
    ensures AllDigits(PadEnd(f, d)) && |PadEnd(f, d)| == d
    ensures TrimZeros(PadEnd(f, d)) == TrimZeros(f)
    ensures Denotes(PadEnd(f, d)) * Pow10(|f|) == Denotes(f) * Pow10(d)
  {
    hide Denotes, Pow10, TrimZeros;
    var k := d - |f|;
    DenotesZeros(k);
    DenotesConcat(f, Zeros(k));
    Pow10Sum(k, |f|);
    assert f + Zeros(0) == f;
    Associate(Denotes(f), Pow10(k), Pow10(|f|));
    TrimAppended(f, k);
  }

  lemma {:induction false} Associate(a: nat, b: nat, c: nat)
    ensures (a * b) * c == a * (b * c)
  {
  }

  lemma {:induction false} Distribute(a: nat, b: nat, f: nat, p: nat, q: nat)
    requires b * q == f * p
    ensures (a * p + b) * q == (a * q + f) * p
  {
    assert (a * p) * q == (a * q) * p;
  }

  lemma {:induction false} SameSign(v: int, q: nat, n: nat, p: nat)
    requires v * q == n * p && p > 0 && q > 0
    ensures v > 0 <==> n > 0
    ensures v >= 0
  {
    if n > 0 {
      assert n * p > 0;
    } else {
      assert n * p == 0;
    }
  }

  lemma {:induction false} TrimAppended(f: string, k: nat)
    ensures TrimZeros(f + Zeros(k)) == TrimZeros(f)
  {
    if k == 0 {
      assert f + Zeros(0) == f;
    } else {
      assert (f + Zeros(k))[..|f| + k - 1] == f + Zeros(k - 1);
      TrimAppended(f, k - 1);
    }
  }

  lemma {:induction false} StrippedDenotes(w: string)
    requires AllDigits(w)
    ensures AllDigits(StripZeros(w)) && Denotes(StripZeros(w)) == Denotes(w)
    ensures w != "" ==> StripZeros(w) == Digits(Denotes(w))
  {
    if |w| >= 2 && w[0] == '0' {
      StrippedDenotes(w[1..]);
      assert w == ['0'] + w[1..];
      DenotesConcat("0", w[1..]);
    } else if w != "" {
      CanonicalDigits(w);
    }
  }

  lemma {:induction false} CanonicalDigits(w: string)
    requires AllDigits(w) && w != "" && (w[0] == '0' ==> |w| == 1)
    ensures Digits(Denotes(w)) == w
  {
    var n := |w| - 1;
    assert w == w[..n] + [w[n]];
    if n > 0 {
      CanonicalDigits(w[..n]);
      ZeroText();
      assert w[..n][0] == w[0] != '0';
      assert Denotes(w[..n]) != 0;
    }
  }

  // ---------------------------------------------------------------- properties

  /** The app and the signer print the same text. */
  lemma {:induction false} SameText(raw: int, decimals: nat)
    ensures FormatTokenAmount(raw, decimals) == FormatUnits(raw, decimals)
  {
    hide Digits, Pow10, PadStart, TrimZeros;
    ZeroText();
    if decimals == 0 {
      NoDecimals(raw);
    } else if raw == 0 {
      assert Quotient(0, Pow10(decimals)) == 0 && Remainder(0, Pow10(decimals)) == 0;
      PrintedZero(decimals);
    }
  }

  lemma {:induction false} NoDecimals(raw: int)
    ensures FormatTokenAmount(raw, 0) == IntText(raw)
  {
    hide Digits;
    ZeroText();
    var abs := if raw < 0 then -raw else raw;
    assert Pow10(0) == 1 && Quotient(abs, 1) == abs && Remainder(abs, 1) == 0;
    PrintedZero(0);
  }

  lemma {:induction false} PrintedZero(decimals: nat)
    ensures TrimZeros(PadStart(Digits(0), decimals)) == ""
  {
    DenotesZeros(decimals);
    PrintedRemainder(Zeros(decimals), decimals);
    TrimAppended("", decimals);
    assert "" + Zeros(decimals) == Zeros(decimals);
  }

  /** On digits with at most one dot, the fraction within the decimals, reading gives the exact value. */
  lemma {:induction false} ReadsExactly(js: Platform, t: string, decimals: nat)
    requires ParsesDecimals(js) && DecimalText(t)
    requires |Fraction(t)| <= decimals <= MAX_DECIMALS
    ensures var digits := AllTheDigits(t);
            var r := UiAmountToRaw(js, t, decimals);
            if t == "" || (digits != "" && Denotes(digits) == 0) then r == Err(EnterAmount)
            else && r.Ok?
                 && r.value == Denotes(Whole(t)) * Pow10(decimals) + Denotes(PadEnd(Fraction(t), decimals))
                 && r.value * Pow10(|Fraction(t)|) == Denotes(digits) * Pow10(decimals)
  {
    hide Trim, Split, StripZeros, PadEnd, Denotes, Pow10, Dot;
    var w, f := Whole(t), Fraction(t);
    TrimKeeps(t);
    DecimalTextSplits(t);
    PaddedTrims(f, decimals);
    StrippedDenotes(w);
    DenotesConcat(w, f);
    DenotesZeros(1);
    assert Zeros(1) == "0";
    EmptyDenotesNothing();
    Distribute(Denotes(w), Denotes(PadEnd(f, decimals)), Denotes(f), Pow10(decimals), Pow10(|f|));
    NoDigits(t);
  }

  lemma {:induction false} EmptyDenotesNothing()
    ensures Denotes("") == 0
  {
  }

  lemma {:induction false} NoDigits(t: string)
    requires DecimalText(t)
    ensures AllTheDigits(t) == "" <==> t == "" || t == "."
  {
    if Dot(t) < |t| {
      assert t == Whole(t) + [t[Dot(t)]] + Fraction(t);
    }
  }

  lemma {:induction false} FilterKeeps(s: string, keepDots: bool)
    requires forall i :: 0 <= i < |s| ==> IsDigit(s[i]) || (keepDots && s[i] == '.')
    ensures Filter(s, keepDots) == s
  {
    if s != "" {
      FilterKeeps(s[1..], keepDots);
    }
  }

  /** What is a decimal text already is left as it is. */
  lemma {:induction false} DecimalIsSanitized(t: string)
    requires DecimalText(t)
    ensures SanitizeDecimalInput(t) == t
  {
    var d := Dot(t);
    forall i | 0 <= i < |t|
      ensures IsDigit(t[i]) || t[i] == '.'
    {
      assert i < d ==> t[i] == Whole(t)[i];
      assert i > d ==> t[i] == Fraction(t)[i - d - 1];
    }
    FilterKeeps(t, true);
    if d < |t| {
      FilterKeeps(Fraction(t), false);
      assert t == t[..d + 1] + Fraction(t);
    }
  }

  lemma {:induction false} FilterSplits(s: string, t: string, keepDots: bool)
    ensures Filter(s + t, keepDots) == Filter(s, keepDots) + Filter(t, keepDots)
  {
    if s == "" {
      assert s + t == t;
    } else {
      assert (s + t)[1..] == s[1..] + t;
      FilterSplits(s[1..], t, keepDots);
    }
  }

  lemma {:induction false} FilterTwice(s: string)
    ensures Filter(Filter(s, true), false) == Filter(s, false)
    ensures Filter(Filter(s, false), false) == Filter(s, false)
  {
    if s != "" {
      FilterTwice(s[1..]);
      FilterSplits([s[0]], Filter(s[1..], true), false);
      FilterSplits([s[0]], Filter(s[1..], false), false);
    }
  }

  /** Sanitising loses no digit and keeps their order; the first dot stays between the digits it was between. */
  lemma {:induction false} SanitizingKeepsDigits(raw: string)
    ensures Filter(SanitizeDecimalInput(raw), false) == Filter(raw, false)
    ensures '.' in SanitizeDecimalInput(raw) <==> '.' in raw
    ensures Dot(raw) < |raw| ==> Whole(SanitizeDecimalInput(raw)) == Filter(raw[..Dot(raw)], false)
  {
    var cleaned := Filter(raw, true);
    var dot := Dot(cleaned);
    FilterTwice(raw);
    DotSurvives(raw);
    if dot < |cleaned| {
      var front, rest := cleaned[..dot + 1], cleaned[dot + 1..];
      assert cleaned == front + rest;
      FilterSplits(front, rest, false);
      FilterSplits(front, Filter(rest, false), false);
      FilterTwice(rest);
      assert (front + Filter(rest, false))[dot] == '.';
      FirstDotKept(front + Filter(rest, false), dot);
    }
  }

  lemma {:induction false} FirstDotKept(t: string, dot: nat)
    requires dot < |t| && t[dot] == '.' && forall k :: 0 <= k < dot ==> t[k] != '.'
    ensures Dot(t) == dot
  {
  }

  lemma {:induction false} DotSurvives(raw: string)
    ensures '.' in Filter(raw, true) <==> '.' in raw
    ensures Dot(raw) < |raw| ==> Dot(Filter(raw, true)) < |Filter(raw, true)|
                                 && Whole(Filter(raw, true)) == Filter(raw[..Dot(raw)], false)
  {
    if raw != "" {
      DotSurvives(raw[1..]);
      var d := Dot(raw);
      if 0 < d < |raw| {
        assert raw[..d][1..] == raw[1..][..d - 1];
        if IsDigit(raw[0]) {
          assert Filter(raw, true)[1..] == Filter(raw[1..], true);
          var dr := Dot(Filter(raw[1..], true));
          assert Filter(raw, true)[..dr + 1] == [raw[0]] + Filter(raw[1..], true)[..dr];
        }
      }
    }
  }

  lemma {:induction false} SanitizedIsDecimal(raw: string)
    ensures DecimalText(SanitizeDecimalInput(raw))
  {
    var cleaned := Filter(raw, true);
    var dot := Dot(cleaned);
    if dot == |cleaned| {
      DotOf(cleaned, "");
    } else {
      var w, f := cleaned[..dot], Filter(cleaned[dot + 1..], false);
      assert forall k :: 0 <= k < dot ==> cleaned[k] in cleaned;
      assert forall k :: 0 <= k < |f| ==> f[k] in f;
      assert cleaned[..dot + 1] == w + ".";
      DotOf(w, f);
    }
  }

  /**
   * What the field's sanitised text is read as: its exact value, in units of the last decimal. The
   * value is positive unless the text is a lone dot, which passes the check for a positive amount.
   */
  lemma {:induction false} SanitizedReadsExactly(js: Platform, raw: string, decimals: nat)
    requires ParsesDecimals(js) && decimals <= MAX_DECIMALS
    ensures DecimalText(SanitizeDecimalInput(raw))
    ensures var t := SanitizeDecimalInput(raw);
            var r := UiAmountToRaw(js, t, decimals);
            && (r.Ok? <==> |Fraction(t)| <= decimals && (t == "." || Denotes(AllTheDigits(t)) > 0))
            && (r.Ok? ==> r.value * Pow10(|Fraction(t)|) == Denotes(AllTheDigits(t)) * Pow10(decimals))
            && (r.Ok? ==> (r.value > 0 <==> t != "."))
  {
    hide Trim, Split, StripZeros, PadEnd, Denotes, Pow10, Dot, SanitizeDecimalInput, Whole, AllTheDigits;
    SanitizedIsDecimal(raw);
    var t := SanitizeDecimalInput(raw);
    DecimalTextSplits(t);
    TrimKeeps(t);
    if |Fraction(t)| <= decimals {
      ReadsExactly(js, t, decimals);
      NoDigits(t);
      EmptyDenotesNothing();
      var r := UiAmountToRaw(js, t, decimals);
      if r.Ok? {
        SameSign(r.value, Pow10(|Fraction(t)|), Denotes(AllTheDigits(t)), Pow10(decimals));
      }
    }
  }

  /** Reading what was printed gives the amount back. */
  lemma {:induction false} RoundTrip(js: Platform, raw: int, decimals: nat)
    requires ParsesDecimals(js) && raw > 0 && decimals <= MAX_DECIMALS
    ensures UiAmountToRaw(js, FormatTokenAmount(raw, decimals), decimals) == Ok(raw)
  {
    hide Denotes, UiAmountToRaw, Dot, ParsesDecimals, Pow10, FormatTokenAmount, PadEnd, Whole, Fraction, Digits;
    var t, w, f := FormattedParts(raw, decimals);
    ReadsExactly(js, t, decimals);
    PaddedTrims(f, decimals);
    DenotesConcat(w, f);
    var padded := PadEnd(f, decimals);
    Distribute(Denotes(w), Denotes(padded), Denotes(f), Pow10(decimals), Pow10(|f|));
    SameSign(raw, Pow10(|f|), Denotes(AllTheDigits(t)), Pow10(decimals));
  }

  /** A printed positive amount: its whole part, and its fraction up to the last nonzero place. */
  lemma {:induction false} FormattedParts(raw: int, decimals: nat) returns (t: string, w: string, f: string)
    requires raw > 0
    ensures t == FormatTokenAmount(raw, decimals) && DecimalText(t) && t != ""
    ensures w == Whole(t) == Digits(raw / Pow10(decimals)) && f == Fraction(t) && |f| <= decimals
    ensures AllDigits(PadEnd(f, decimals))
    ensures raw == Denotes(w) * Pow10(decimals) + Denotes(PadEnd(f, decimals))
  {
    hide Denotes, Dot, Pow10, Digits, TrimZeros, PadStart, PadEnd, Whole, Fraction, Split;
    t := FormatTokenAmount(raw, decimals);
    var base := Pow10(decimals);
    w := Digits(Quotient(raw, base));
    f := TrimmedRemainder(raw, decimals);
    DigitsDenote(Quotient(raw, base));
    assert raw == Quotient(raw, base) * base + Remainder(raw, base);
    DotOf(w, f);
  }

  /** The printed fraction, padded to the decimals, is the remainder. */
  lemma {:induction false} TrimmedRemainder(raw: int, decimals: nat) returns (f: string)
    requires raw >= 0
    ensures f == TrimZeros(PadStart(Digits(Remainder(raw, Pow10(decimals))), decimals))
    ensures AllDigits(f) && |f| <= decimals && AllDigits(PadEnd(f, decimals))
    ensures Denotes(PadEnd(f, decimals)) == Remainder(raw, Pow10(decimals))
  {
    var m := Remainder(raw, Pow10(decimals));
    var padded := PadStart(Digits(m), decimals);
    f := TrimZeros(padded);
    if decimals == 0 {
      assert Pow10(0) == 1 && m == 0;
      TrimAppended("", 1);
      assert "" + Zeros(1) == "0" == padded;
    } else {
      PaddedDenotes(m, decimals);
      TrimmedPadsBack(padded);
    }
  }

  /** The shortest text of the same number. */
  function Canonical(t: string): string {
    var w := if Whole(t) == "" then "0" else StripZeros(Whole(t));
    var f := TrimZeros(Fraction(t));
    if f == "" then w else w + "." + f
  }

  /** Printing what was read gives the text back, up to zeros that carry no value. */
  lemma {:induction false} ReadThenPrinted(js: Platform, t: string, decimals: nat)
    requires ParsesDecimals(js) && DecimalText(t) && t != "." && decimals <= MAX_DECIMALS
    requires |Fraction(t)| <= decimals && UiAmountToRaw(js, t, decimals).Ok?
    ensures FormatTokenAmount(UiAmountToRaw(js, t, decimals).value, decimals) == Canonical(t)
  {
    hide Trim, Split, StripZeros, UiAmountToRaw, TrimZeros, ParsesDecimals, Dot, Denotes, Digits, Pow10, PadEnd,
         PadStart, Whole, Fraction;
    ReadsExactly(js, t, decimals);
    var raw := UiAmountToRaw(js, t, decimals).value;
    var w, f := Whole(t), Fraction(t);
    NoDigits(t);
    SameSign(raw, Pow10(|f|), Denotes(AllTheDigits(t)), Pow10(decimals));
    var padded := PadEnd(f, decimals);
    PaddedTrims(f, decimals);
    DenotesBelow(padded);
    DivMod(raw, Pow10(decimals), Denotes(w), Denotes(padded));
    StrippedDenotes(w);
    ZeroText();
    PrintedRemainder(padded, decimals);
  }

  lemma {:induction false} ZeroText()
    ensures Digits(0) == "0" && Denotes("") == 0
  {
  }

  lemma {:induction false} PrintedRemainder(padded: string, decimals: nat)
    requires AllDigits(padded) && |padded| == decimals
    ensures TrimZeros(PadStart(Digits(Denotes(padded)), decimals)) == TrimZeros(padded)
  {
    if decimals == 0 {
      TrimAppended("", 1);
      assert "" + Zeros(1) == "0";
    } else {
      DenotesBelow(padded);
      PaddedDenotes(Denotes(padded), decimals);
      DenotesInjective(PadStart(Digits(Denotes(padded)), decimals), padded);
    }
  }

  lemma {:induction false} PositiveText(js: Platform, raw: int, decimals: nat)
    requires ParsesDecimals(js) && raw > 0 && decimals <= MAX_DECIMALS
    ensures var t := FormatTokenAmount(raw, decimals);
            t != "" && t != "0" && t[0] != '-'
  {
    hide Denotes, UiAmountToRaw, Dot, ParsesDecimals, Pow10, FormatTokenAmount, PadEnd, Digits;
    var t, w, f := FormattedParts(raw, decimals);
    RoundTrip(js, raw, decimals);
    DotOf("0", "");
    ReadsExactly(js, "0", decimals);
    assert AllTheDigits("0") == Zeros(1);
    DenotesZeros(1);
    assert t[0] == w[0];
  }

  /** Different amounts of a mint never look the same. */
  lemma {:induction false} TextIsInjective(r1: int, r2: int, decimals: nat)
    requires decimals <= MAX_DECIMALS
    requires FormatTokenAmount(r1, decimals) == FormatTokenAmount(r2, decimals)
    ensures r1 == r2
  {
    hide UiAmountToRaw, ParsesDecimals, DecimalPlatform, TrimZeros, Digits, PadStart, Pow10;
    var js := DecimalPlatform();
    DecimalPlatformParses();
    var a1, a2 := if r1 < 0 then -r1 else r1, if r2 < 0 then -r2 else r2;
    if a1 > 0 {
      PositiveText(js, a1, decimals);
      RoundTrip(js, a1, decimals);
    }
    if a2 > 0 {
      PositiveText(js, a2, decimals);
      RoundTrip(js, a2, decimals);
    }
    var t1, t2 := FormatTokenAmount(a1, decimals), FormatTokenAmount(a2, decimals);
    assert r1 < 0 ==> FormatTokenAmount(r1, decimals) == "-" + t1 && ("-" + t1)[1..] == t1;
    assert r2 < 0 ==> FormatTokenAmount(r2, decimals) == "-" + t2 && ("-" + t2)[1..] == t2;
  }

  /** Unsanitised, a sign behind the dot is not a number to the positivity check, yet reads as an integer. */
  lemma {:induction false} UnsanitizedCanBeNegative(js: Platform)
    requires !js.AtMostZero("0.-5") && js.ParseInteger("0") == Some(0) && js.ParseInteger("-5") == Some(-5)
    ensures UiAmountToRaw(js, "0.-5", 2) == Ok(-5)
  {
    var t := "0.-5";
    assert Dot(t[1..]) == 0 && Dot(t) == 1;
    assert t[..1] == "0" && t[2..] == "-5";
    assert Dot("-5") == 2 by {
      assert "-5"[1..] == "5" && "5"[1..] == "";
    }
    assert Split("-5") == ["-5"];
  }
}
