/** Notions that several components share: the money column, blanks, numerals and padding. */
module Common {
  /** The largest amount a signed 32-bit column holds. */
  const MAX_MONEY_AMOUNT: nat := 2_147_483_647

  function Max(a: int, b: int): int { if a >= b then a else b }

  function Pow2(n: nat): (p: nat)
    ensures p >= 1
  {
    if n == 0 then 1 else 2 * Pow2(n - 1)
  }

  /** White space and line terminators as `trim` and `parseInt` see them (section 12.2 of ECMA-262). */
  predicate IsSpace(c: char) {
    || '\U{9}' <= c <= '\U{D}' || c == ' ' || c == '\U{A0}' || c == '\U{1680}' || '\U{2000}' <= c <= '\U{200A}'
    || c == '\U{2028}' || c == '\U{2029}' || c == '\U{202F}' || c == '\U{205F}' || c == '\U{3000}' || c == '\U{FEFF}'
  }

  predicate IsDigit(c: char) { '0' <= c <= '9' }

  predicate IsHex(c: char) {
    IsDigit(c) || 'a' <= c <= 'f' || 'A' <= c <= 'F'
  }

  function HexValue(c: char): nat
    requires IsHex(c)
  {
    if IsDigit(c) then c as int - '0' as int
    else if 'a' <= c <= 'f' then c as int - 'a' as int + 10
    else c as int - 'A' as int + 10
  }

  predicate AllHex(s: string) {
    forall i | 0 <= i < |s| :: IsHex(s[i])
  }

  /** The number that a string of digits denotes in a base. */
  function Numeral(s: string, base: nat): nat
    requires AllHex(s)
  {
    if s == [] then 0 else base * Numeral(s[..|s| - 1], base) + HexValue(s[|s| - 1])
  }

  lemma {:induction false} LeadingZero(s: string, base: nat)
    requires AllHex(s)
    ensures AllHex("0" + s) && Numeral("0" + s, base) == Numeral(s, base)
    decreases |s|
  {
    var z := "0" + s;
    if s == [] {
      assert z[..0] == [] && HexValue(z[0]) == 0;
    } else {
      assert z[..|z| - 1] == "0" + s[..|s| - 1];
      LeadingZero(s[..|s| - 1], base);
    }
  }

  function PadStart(s: string, width: nat, c: char): string
    decreases width - |s|
  {
    if |s| >= width then s else PadStart([c] + s, width, c)
  }

  lemma {:induction false} PadWidth(s: string, width: nat, c: char)
    ensures |PadStart(s, width, c)| == if |s| >= width then |s| else width
    decreases width - |s|
  {
    if |s| < width {
      PadWidth([c] + s, width, c);
    }
  }
}
