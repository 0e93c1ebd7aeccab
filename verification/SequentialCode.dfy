/**
 * Sequential human codes such as INV-2026-0007: the next code is one above the largest
 * numeric suffix in use. Suffixes are read the way `parseInt` reads them and held in
 * double-precision numbers, so large suffixes round.
 */
module SequentialCode {
  import opened Common
  import opened Options

  /** Every integer up to this one is a double. */
  const MAX_EXACT: nat := 0x20_0000_0000_0000

  /** Numbers from here on are printed with an exponent. */
  const DECIMAL_LIMIT: nat := 1_000_000_000_000_000_000_000

  function DigitChar(d: nat): (c: char)
    requires d < 10
    ensures IsDigit(c) && HexValue(c) == d
  {
    (d + '0' as int) as char
  }

  predicate AllDigits(s: string) {
    forall i | 0 <= i < |s| :: IsDigit(s[i])
  }

  /** The number a string of decimal digits denotes. */
  function Decimal(s: string): nat
    requires AllDigits(s)
  {
    Numeral(s, 10)
  }

  /** Decimal digits of a number, without leading zeros. */
  function ToDecimal(n: nat): (s: string)
    ensures s != [] && AllDigits(s)
  {
    if n < 10 then [DigitChar(n)] else ToDecimal(n / 10) + [DigitChar(n % 10)]
  }

  function Exponent(n: nat): nat {
    if n < MAX_EXACT then 0 else 1 + Exponent(n / 2)
  }

  /** The double nearest to an integer, ties to even. */
  function ToDouble(n: nat): nat {
    var unit := Pow2(Exponent(n));
    var q, r := n / unit, n % unit;
    if 2 * r > unit || (2 * r == unit && q % 2 == 1) then (q + 1) * unit else q * unit
  }

  lemma ExactDoubles(n: nat)
    requires n <= MAX_EXACT
    ensures ToDouble(n) == n
  {
  }

  function TrimStart(s: string): string {
    if s != [] && IsSpace(s[0]) then TrimStart(s[1..]) else s
  }

  /** The longest prefix of digits. */
  function LeadingDigits(s: string): (r: string)
    ensures AllDigits(r) && |r| <= |s|
  {
    if s != [] && IsDigit(s[0]) then [s[0]] + LeadingDigits(s[1..]) else []
  }

  /** Whether the double nearest to a number is finite, that is, below 2^1024. */
  predicate Finite(n: nat) {
    Exponent(ToDouble(n)) < 972
  }

  /**
   * parseInt in base 10: blanks, an optional sign, then as many digits as there are. None
   * stands for NaN and for an infinite result, neither of which is an integer.
   */
  function ParseInt(s: string): Option<int> {
    var t := TrimStart(s);
    var negative := t != [] && t[0] == '-';
    var digits := LeadingDigits(if t != [] && (t[0] == '-' || t[0] == '+') then t[1..] else t);
    if digits == [] || !Finite(Decimal(digits)) then None
    else
      var magnitude: int := ToDouble(Decimal(digits));
      Some(if negative then -magnitude else magnitude)
  }

  /** What a code counts for under a prefix. */
  function Suffix(prefix: string, code: string): int {
    if prefix <= code then
      var parsed := ParseInt(code[|prefix|..]);
      if parsed.Some? then parsed.value else 0
    else 0
  }

  /** The largest suffix in use, or 0. */
  function MaxSuffix(prefix: string, codes: seq<string>): nat {
    if codes == [] then 0
    else
      var m := MaxSuffix(prefix, codes[..|codes| - 1]);
      var x := Suffix(prefix, codes[|codes| - 1]);
      if x > m then x else m
  }

  // ------------------------------------------------------------- printing a double

  /** q times 10^e. */
  function Scaled(q: nat, e: nat): nat {
    if e == 0 then q else 10 * Scaled(q, e - 1)
  }

  /** x divided by 10^e, rounded down. */
  function Quotient(x: nat, e: nat): nat {
    if e == 0 then x else Quotient(x / 10, e - 1)
  }

  /**
   * The significand and power of ten that stand for a double: the fewest digits, from `k` on,
   * that still round to it, and of two choices the closer, then the even one.
   */
  function Significand(x: nat, k: nat): (nat, nat)
    requires 1 <= k <= |ToDecimal(x)|
    decreases |ToDecimal(x)| - k
  {
    var e := |ToDecimal(x)| - k;
    var q := Quotient(x, e);
    var below, above := Scaled(q, e), Scaled(q + 1, e);
    var down, up := ToDouble(below) == x, ToDouble(above) == x;
    if e == 0 || (down && (!up || x - below < above - x || (x - below == above - x && q % 2 == 0))) then (q, e)
    else if up then (q + 1, e)
    else Significand(x, k + 1)
  }

  /** Some number with `e` zeros next to the double rounds to it. */
  predicate Stands(x: nat, e: nat) {
    ToDouble(Scaled(Quotient(x, e), e)) == x || ToDouble(Scaled(Quotient(x, e) + 1, e)) == x
  }

  /** The digits found stand for the double. */
  lemma {:induction false} SignificandRoundsBack(x: nat, k: nat)
    requires 1 <= k <= |ToDecimal(x)| && ToDouble(x) == x
    ensures var (q, e) := Significand(x, k); ToDouble(Scaled(q, e)) == x
    decreases |ToDecimal(x)| - k
  {
    if |ToDecimal(x)| > k && !Stands(x, |ToDecimal(x)| - k) {
      SignificandRoundsBack(x, k + 1);
    }
  }

  /** No fewer digits do. */
  lemma {:induction false} SignificandIsShortest(x: nat, k: nat, f: nat)
    requires 1 <= k <= |ToDecimal(x)| && Significand(x, k).1 < f <= |ToDecimal(x)| - k
    ensures !Stands(x, f)
    decreases |ToDecimal(x)| - k
  {
    var e := |ToDecimal(x)| - k;
    if !Stands(x, e) && f < e {
      SignificandIsShortest(x, k + 1, f);
    }
  }

  function DropZeros(s: string): string {
    if s != [] && s[|s| - 1] == '0' then DropZeros(s[..|s| - 1]) else s
  }

  function Exponential(x: nat): (s: string)
    ensures |s| > 1 && IsDigit(s[0]) && !IsDigit(s[1])
  {
    var (q, e) := Significand(x, 1);
    var digits := ToDecimal(q);
    var fraction := DropZeros(digits[1..]);
    [digits[0]] + (if fraction == "" then "" else "." + fraction) + "e+" + ToDecimal(e + |digits| - 1)
  }

  /** A number as text (section 6.1.6.1.20 of ECMA-262): decimal below 10^21, then exponential. */
  function NumberText(x: nat): (s: string)
    ensures s != []
  {
    if x < DECIMAL_LIMIT then ToDecimal(x) else Exponential(x)
  }

  /** The code that stands for number `n`. */
  function CodeFor(prefix: string, n: nat, padWidth: nat): string {
    prefix + PadStart(NumberText(n), padWidth, '0')
  }

  function NextCode(prefix: string, codes: seq<string>, padWidth: nat): string {
    CodeFor(prefix, ToDouble(MaxSuffix(prefix, codes) + 1), padWidth)
  }

  lemma {:induction false} DecimalOfToDecimal(n: nat)
    ensures Decimal(ToDecimal(n)) == n
  {
    if n < 10 {
      assert ToDecimal(n)[..0] == [] && Numeral([], 10) == 0;
    } else {
      var s := ToDecimal(n);
      assert s[..|s| - 1] == ToDecimal(n / 10);
      DecimalOfToDecimal(n / 10);
    }
  }

  /** Padding with zeros does not change the number read. */
  lemma {:induction false} PaddingKeepsValue(s: string, width: nat)
    requires s != [] && LeadingDigits(s) != []
    ensures var p := PadStart(s, width, '0');
            p != [] && LeadingDigits(p) != [] && Decimal(LeadingDigits(p)) == Decimal(LeadingDigits(s))
    decreases width - |s|
  {
    if |s| < width {
      assert LeadingDigits("0" + s) == "0" + LeadingDigits(s) by { assert ("0" + s)[1..] == s; }
      LeadingZero(LeadingDigits(s), 10);
      PaddingKeepsValue("0" + s, width);
    }
  }

  lemma {:induction false} DigitsParse(s: string)
    requires AllDigits(s)
    ensures LeadingDigits(s) == s
    decreases |s|
  {
    if s != [] {
      DigitsParse(s[1..]);
      assert [s[0]] + s[1..] == s;
    }
  }

  lemma {:induction false} TrimStartDrops(blanks: string, text: string)
    requires (forall i | 0 <= i < |blanks| :: IsSpace(blanks[i])) && (text == [] || !IsSpace(text[0]))
    ensures TrimStart(blanks + text) == text
    decreases |blanks|
  {
    if blanks != [] {
      assert (blanks + text)[1..] == blanks[1..] + text;
      TrimStartDrops(blanks[1..], text);
    } else {
      assert blanks + text == text;
    }
  }

  /** Blanks in front and anything that is no digit behind do not matter; the sign does. */
  lemma ParseIntReads(blanks: string, sign: Option<char>, digits: string, rest: string)
    requires forall i | 0 <= i < |blanks| :: IsSpace(blanks[i])
    requires sign.None? || sign.value == '+' || sign.value == '-'
    requires digits != [] && AllDigits(digits) && (rest == [] || !IsDigit(rest[0]))
    ensures var signed := (if sign.Some? then [sign.value] else []) + (digits + rest);
            ParseInt(blanks + signed) ==
            if !Finite(Decimal(digits)) then None
            else Some(if sign == Some('-') then -1 * ToDouble(Decimal(digits)) else ToDouble(Decimal(digits)))
  {
    var signed := (if sign.Some? then [sign.value] else []) + (digits + rest);
    assert signed[0] == if sign.Some? then sign.value else digits[0];
    TrimStartDrops(blanks, signed);
    LeadingDigitsStop(digits, rest);
    assert sign.Some? ==> signed[1..] == digits + rest;
    assert sign.None? ==> signed == digits + rest;
  }

  lemma {:induction false} LeadingDigitsStop(digits: string, rest: string)
    requires AllDigits(digits) && (rest == [] || !IsDigit(rest[0]))
    ensures LeadingDigits(digits + rest) == digits
    decreases |digits|
  {
    if digits != [] {
      assert (digits + rest)[1..] == digits[1..] + rest;
      LeadingDigitsStop(digits[1..], rest);
    } else {
      assert digits + rest == rest;
    }
  }

  lemma OneDigitParses(s: string)
    requires |s| > 1 && IsDigit(s[0]) && !IsDigit(s[1])
    ensures LeadingDigits(s) == [s[0]] && Decimal(LeadingDigits(s)) == HexValue(s[0]) < 10
  {
    assert LeadingDigits(s[1..]) == [];
    assert [s[0]][..0] == [] && Numeral([], 10) == 0;
  }

  lemma {:induction false} PowOfExponent(n: nat)
    requires n > 0
    ensures Pow2(Exponent(n)) <= n
    decreases n
  {
    if n >= MAX_EXACT {
      PowOfExponent(n / 2);
    }
  }

  lemma {:induction false} ExponentBound(n: nat, k: nat)
    requires n < MAX_EXACT * Pow2(k)
    ensures Exponent(n) <= k
    decreases k
  {
    if n >= MAX_EXACT {
      ExponentBound(n / 2, k - 1);
    }
  }

  lemma PlainNumbersAreFinite(n: nat)
    requires n < DECIMAL_LIMIT
    ensures Finite(n)
  {
    if n > 0 {
      PowOfExponent(n);
      assert ToDouble(n) <= 2 * n by {
        var unit := Pow2(Exponent(n));
        assert n == n / unit * unit + n % unit;
        assert (n / unit + 1) * unit == n / unit * unit + unit;
      }
    } else {
      ExactDoubles(n);
    }
    assert Pow2(18) == 0x4_0000 by { assert Pow2(9) == 0x200; }
    ExponentBound(ToDouble(n), 18);
  }

  /** What a padded text without a sign or blanks in front counts for. */
  lemma CountsForLeadingDigits(prefix: string, text: string, padWidth: nat)
    requires text != [] && LeadingDigits(text) != [] && Finite(Decimal(LeadingDigits(text)))
    ensures Suffix(prefix, prefix + PadStart(text, padWidth, '0')) == ToDouble(Decimal(LeadingDigits(text)))
  {
    var p := PadStart(text, padWidth, '0');
    PaddingKeepsValue(text, padWidth);
    assert (prefix + p)[|prefix|..] == p && prefix <= prefix + p;
    assert IsDigit(p[0]);
  }

  /** Printing and reading back: the code for `n` counts for `n` below 10^21, and for a digit from there on. */
  lemma CodeCountsForItself(prefix: string, n: nat, padWidth: nat)
    ensures n < DECIMAL_LIMIT ==> Suffix(prefix, CodeFor(prefix, n, padWidth)) == ToDouble(n)
    ensures n >= DECIMAL_LIMIT ==> Suffix(prefix, CodeFor(prefix, n, padWidth)) < 10
  {
    var text := NumberText(n);
    if n < DECIMAL_LIMIT {
      DecimalOfToDecimal(n);
      DigitsParse(text);
      PlainNumbersAreFinite(n);
    } else {
      OneDigitParses(text);
      PlainNumbersAreFinite(HexValue(text[0]));
      ExactDoubles(HexValue(text[0]));
    }
    CountsForLeadingDigits(prefix, text, padWidth);
  }

  lemma {:induction false} MaxSuffixIsMax(prefix: string, codes: seq<string>, i: nat)
    requires i < |codes|
    ensures Suffix(prefix, codes[i]) <= MaxSuffix(prefix, codes)
    decreases |codes|
  {
    if i < |codes| - 1 {
      MaxSuffixIsMax(prefix, codes[..|codes| - 1], i);
    }
  }

  /** As long as the largest suffix is an exact double below 2^53, the next code is new. */
  lemma NextCodeIsFresh(prefix: string, codes: seq<string>, padWidth: nat)
    requires MaxSuffix(prefix, codes) < MAX_EXACT
    ensures NextCode(prefix, codes, padWidth) == CodeFor(prefix, MaxSuffix(prefix, codes) + 1, padWidth)
    ensures NextCode(prefix, codes, padWidth) !in codes
  {
    var n := MaxSuffix(prefix, codes) + 1;
    ExactDoubles(n);
    CodeCountsForItself(prefix, n, padWidth);
    forall i | 0 <= i < |codes| ensures codes[i] != NextCode(prefix, codes, padWidth) {
      MaxSuffixIsMax(prefix, codes, i);
    }
  }

  /** Adding the next code raises the largest suffix by exactly one. */
  lemma NextCodeIsConsecutive(prefix: string, codes: seq<string>, padWidth: nat)
    requires MaxSuffix(prefix, codes) < MAX_EXACT
    ensures MaxSuffix(prefix, codes + [NextCode(prefix, codes, padWidth)]) == MaxSuffix(prefix, codes) + 1
  {
    var n := MaxSuffix(prefix, codes) + 1;
    ExactDoubles(n);
    CodeCountsForItself(prefix, n, padWidth);
    var all := codes + [NextCode(prefix, codes, padWidth)];
    assert all[..|all| - 1] == codes;
  }

  /** At 2^53 itself the sum rounds back and the code in use is proposed again. */
  lemma RoundingRepeatsCode(prefix: string)
    ensures var code := CodeFor(prefix, MAX_EXACT, 4);
            MaxSuffix(prefix, [code]) == MAX_EXACT && NextCode(prefix, [code], 4) == code
  {
    var code := CodeFor(prefix, MAX_EXACT, 4);
    CodeCountsForItself(prefix, MAX_EXACT, 4);
    ExactDoubles(MAX_EXACT);
    assert [code][..0] == [];
    assert MaxSuffix(prefix, [code]) == MAX_EXACT;
    var n := MAX_EXACT + 1;
    assert Exponent(n / 2) == 0 && Exponent(n) == 1 && Pow2(1) == 2;
    assert n / 2 == 0x10_0000_0000_0000 && n % 2 == 1;
    assert ToDouble(n) == MAX_EXACT;
  }

  /** Suffixes up to `m` are safe exactly when `m` is below 2^53. */
  lemma FreshIffExact(prefix: string, m: nat)
    ensures (forall codes | MaxSuffix(prefix, codes) <= m :: NextCode(prefix, codes, 4) !in codes) <==> m < MAX_EXACT
  {
    if m < MAX_EXACT {
      forall codes | MaxSuffix(prefix, codes) <= m ensures NextCode(prefix, codes, 4) !in codes {
        NextCodeIsFresh(prefix, codes, 4);
      }
    } else {
      RoundingRepeatsCode(prefix);
      var codes := [CodeFor(prefix, MAX_EXACT, 4)];
      assert MaxSuffix(prefix, codes) <= m && NextCode(prefix, codes, 4) in codes;
    }
  }

  /** nextSequentialCode as the service runs it. */
  method NextSequentialCode(prefix: string, codes: seq<string>, padWidth: nat) returns (next: string)
    ensures next == NextCode(prefix, codes, padWidth)
    ensures MaxSuffix(prefix, codes) < MAX_EXACT ==> next !in codes
  {
    var max := 0;
    for i := 0 to |codes|
      invariant max == MaxSuffix(prefix, codes[..i])
    {
      assert codes[..i + 1][..i] == codes[..i];
      if !(prefix <= codes[i]) {
        continue;
      }
      var parsed := ParseInt(codes[i][|prefix|..]);
      if parsed.Some? && parsed.value > max {
        max := parsed.value;
      }
    }
    assert codes[..|codes|] == codes;
    next := prefix + PadStart(NumberText(ToDouble(max + 1)), padWidth, '0');
    if max < MAX_EXACT {
      NextCodeIsFresh(prefix, codes, padWidth);
    }
  }

  // -------------------------------------------- suffixes that fit a short column

  function Pow10(n: nat): (p: nat)
    ensures p >= 1
  {
    if n == 0 then 1 else 10 * Pow10(n - 1)
  }

  lemma {:induction false} DecimalBound(s: string)
    requires AllDigits(s)
    ensures Decimal(s) < Pow10(|s|)
    decreases |s|
  {
    if s != [] {
      DecimalBound(s[..|s| - 1]);
    }
  }

  lemma {:induction false} Pow10Grows(m: nat, n: nat)
    requires m <= n
    ensures Pow10(m) <= Pow10(n)
    decreases n
  {
    if m < n {
      Pow10Grows(m, n - 1);
    }
  }

  /** A number below 10^k has at most k digits, and only such a number does. */
  lemma {:induction false} DecimalWidth(n: nat, k: nat)
    requires k > 0
    ensures |ToDecimal(n)| <= k <==> n < Pow10(k)
    decreases k
  {
    if n < 10 {
      Pow10Grows(1, k);
    } else if k > 1 {
      DecimalWidth(n / 10, k - 1);
    } else {
      assert |ToDecimal(n / 10)| >= 1;
    }
  }

  lemma Pow10Eleven()
    ensures Pow10(11) == 100_000_000_000
  {
  }

  /** A code is its prefix and at least `padWidth` characters. */
  lemma CodeShape(prefix: string, n: nat, padWidth: nat)
    ensures prefix <= CodeFor(prefix, n, padWidth) && |CodeFor(prefix, n, padWidth)| >= |prefix| + padWidth
  {
    PadWidth(NumberText(n), padWidth, '0');
  }

  /** A number printed in decimal fits eleven characters after its prefix exactly below 10^11. */
  lemma CodeFitsIff(prefix: string, n: nat)
    requires n < DECIMAL_LIMIT
    ensures |CodeFor(prefix, n, 4)| <= |prefix| + 11 <==> n < 100_000_000_000
  {
    PadWidth(ToDecimal(n), 4, '0');
    DecimalWidth(n, 11);
    Pow10Eleven();
  }

  lemma {:induction false} TrimStartShortens(s: string)
    ensures |TrimStart(s)| <= |s|
    decreases |s|
  {
    if s != [] && IsSpace(s[0]) {
      TrimStartShortens(s[1..]);
    }
  }

  /** Eleven characters cannot hold a suffix anywhere near 2^53. */
  lemma ShortSuffixIsExact(prefix: string, code: string)
    requires |code| <= |prefix| + 11
    ensures Suffix(prefix, code) < 100_000_000_000 < MAX_EXACT
  {
    if prefix <= code {
      var s := code[|prefix|..];
      TrimStartShortens(s);
      var t := TrimStart(s);
      var digits := LeadingDigits(if t != [] && (t[0] == '-' || t[0] == '+') then t[1..] else t);
      DecimalBound(digits);
      Pow10Grows(|digits|, 11);
      Pow10Eleven();
      ExactDoubles(Decimal(digits));
    }
  }
}
