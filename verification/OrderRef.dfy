/**
 * Order references: "VV" and eight characters of a 32-letter alphabet. The gateway gets
 * the reference as a number, and webhooks find it again by searching the transfer
 * description for the first match of the pattern.
 */
module OrderRef {
  import opened Options

  const ALPHABET: string := "ABCDEFGHJKLMNPQRSTUVWXYZ23456789"

  /** Position of a character from `from` on, as indexOf finds it. */
  function IndexFrom(c: char, from: nat): (r: Option<nat>)
    requires from <= |ALPHABET|
    ensures r.Some? ==> from <= r.value < |ALPHABET| && ALPHABET[r.value] == c
    ensures r.None? ==> forall i | from <= i < |ALPHABET| :: ALPHABET[i] != c
    decreases |ALPHABET| - from
  {
    if from == |ALPHABET| then None
    else if ALPHABET[from] == c then Some(from)
    else IndexFrom(c, from + 1)
  }

  predicate InAlphabet(c: char) {
    IndexFrom(c, 0).Some?
  }

  function Index(c: char): (i: nat)
    requires InAlphabet(c)
    ensures i < 32 && ALPHABET[i] == c
  {
    IndexFrom(c, 0).value
  }

  predicate AllInAlphabet(s: string) {
    forall i | 0 <= i < |s| :: InAlphabet(s[i])
  }

  predicate IsRef(s: string) {
    |s| == 10 && s[0] == 'V' && s[1] == 'V' && AllInAlphabet(s[2..])
  }

  /** Value of alphabet characters in base 32. */
  function Base32(s: string): nat
    requires AllInAlphabet(s)
  {
    if s == [] then 0 else 32 * Base32(s[..|s| - 1]) + Index(s[|s| - 1])
  }

  /** The gateway's order code of a reference. */
  function OrderCode(ref: string): nat
    requires IsRef(ref)
  {
    Base32(ref[2..]) + 1
  }

  /** `n` base-32 digits. */
  function Digits(v: nat, n: nat): (s: string)
    ensures |s| == n
  {
    if n == 0 then "" else Digits(v / 32, n - 1) + [ALPHABET[v % 32]]
  }

  function Pow32(n: nat): (p: nat)
    ensures p >= 1
  {
    if n == 0 then 1 else 32 * Pow32(n - 1)
  }

  lemma AlphabetIsDistinct(i: nat, j: nat)
    requires i < j < 32
    ensures ALPHABET[i] != ALPHABET[j]
  {
    assert |ALPHABET| == 32;
    if j < 24 {
      Ascending(i, j, 0, 24);
    } else if i >= 24 {
      Ascending(i, j, 24, 32);
    } else {
      Ascending(0, i, 0, 24);
      Ascending(j, 31, 24, 32);
    }
  }

  /** Letters ascend, and so do the digits after them. */
  lemma {:induction false} Ascending(i: nat, j: nat, lo: nat, hi: nat)
    requires lo <= i <= j < hi && ((lo == 0 && hi == 24) || (lo == 24 && hi == 32))
    ensures ALPHABET[i] <= ALPHABET[j] && (i < j ==> ALPHABET[i] < ALPHABET[j])
    decreases j - i
  {
    if i < j {
      AdjacentAscend(i);
      Ascending(i + 1, j, lo, hi);
    }
  }

  lemma AdjacentAscend(i: nat)
    requires i < 31 && i != 23
    ensures ALPHABET[i] < ALPHABET[i + 1]
  {
  }

  lemma IndexOfLetter(i: nat)
    requires i < 32
    ensures InAlphabet(ALPHABET[i]) && Index(ALPHABET[i]) == i
  {
    var r := IndexFrom(ALPHABET[i], 0);
    assert r.Some?;
    if r.value < i {
      AlphabetIsDistinct(r.value, i);
    } else if i < r.value {
      AlphabetIsDistinct(i, r.value);
    }
  }

  lemma {:induction false} Base32Bound(s: string)
    requires AllInAlphabet(s)
    ensures Base32(s) < Pow32(|s|)
    decreases |s|
  {
    if s != [] {
      Base32Bound(s[..|s| - 1]);
    }
  }

  lemma QuotientAndRest(q: nat, r: nat)
    requires r < 32
    ensures (32 * q + r) / 32 == q && (32 * q + r) % 32 == r
  {
  }

  lemma {:induction false} DigitsInvert(s: string)
    requires AllInAlphabet(s)
    ensures Digits(Base32(s), |s|) == s
    decreases |s|
  {
    if s != [] {
      var n := |s| - 1;
      var rest, last := Base32(s[..n]), Index(s[n]);
      DigitsInvert(s[..n]);
      QuotientAndRest(rest, last);
      assert Digits(Base32(s), |s|) == Digits(rest, n) + [ALPHABET[last]];
      assert s == s[..n] + [s[n]];
    }
  }

  lemma {:induction false} Base32Inverts(v: nat, n: nat)
    requires v < Pow32(n)
    ensures AllInAlphabet(Digits(v, n)) && Base32(Digits(v, n)) == v
  {
    if n > 0 {
      Base32Inverts(v / 32, n - 1);
      IndexOfLetter(v % 32);
      var s := Digits(v, n);
      assert s[..|s| - 1] == Digits(v / 32, n - 1);
    }
  }

  lemma Pow32Eight()
    ensures Pow32(8) == 0x100_0000_0000
  {
  }

  /** The reference of an order code. */
  function RefOf(code: nat): string
    requires 1 <= code <= 0x100_0000_0000
  {
    "VV" + Digits(code - 1, 8)
  }

  lemma RefOfInverts(ref: string)
    requires IsRef(ref)
    ensures 1 <= OrderCode(ref) <= 0x100_0000_0000 && RefOf(OrderCode(ref)) == ref
  {
    Pow32Eight();
    Base32Bound(ref[2..]);
    DigitsInvert(ref[2..]);
    assert ref == "VV" + ref[2..];
  }

  lemma OrderCodeInverts(code: nat)
    requires 1 <= code <= 0x100_0000_0000
    ensures IsRef(RefOf(code)) && OrderCode(RefOf(code)) == code
  {
    Pow32Eight();
    Base32Inverts(code - 1, 8);
    assert RefOf(code)[2..] == Digits(code - 1, 8);
  }

  /** Order codes are a bijection between the references and 1..2^40. */
  lemma OrderCodeIsBijective(ref: string, code: nat)
    ensures IsRef(ref) ==> 1 <= OrderCode(ref) <= 0x100_0000_0000 && RefOf(OrderCode(ref)) == ref
    ensures 1 <= code <= 0x100_0000_0000 ==> IsRef(RefOf(code)) && OrderCode(RefOf(code)) == code
  {
    if IsRef(ref) {
      RefOfInverts(ref);
    }
    if 1 <= code <= 0x100_0000_0000 {
      OrderCodeInverts(code);
    }
  }

  lemma Base32Append(s: string, c: char)
    requires AllInAlphabet(s) && InAlphabet(c)
    ensures AllInAlphabet(s + [c]) && Base32(s + [c]) == 32 * Base32(s) + Index(c)
  {
    assert (s + [c])[..|s|] == s;
  }

  /** orderRefToOrderCode; None is the thrown error. */
  method OrderRefToOrderCode(ref: string) returns (code: Option<nat>)
    ensures var tail := if |ref| >= 2 then ref[2..] else [];
            code == if AllInAlphabet(tail) then Some(Base32(tail) + 1) else None
    ensures IsRef(ref) ==> code == Some(OrderCode(ref))
  {
    var tail := if |ref| >= 2 then ref[2..] else [];
    var acc := 0;
    for i := 0 to |tail|
      invariant AllInAlphabet(tail[..i]) && acc == Base32(tail[..i])
    {
      var index := IndexFrom(tail[i], 0);
      if index.None? {
        return None;
      }
      assert tail[..i + 1] == tail[..i] + [tail[i]];
      Base32Append(tail[..i], tail[i]);
      acc := acc * 32 + index.value;
    }
    assert tail[..|tail|] == tail;
    return Some(acc + 1);
  }

  /** generateOrderRef from eight random bytes: always a reference. */
  method GenerateOrderRef(bytes: seq<nat>) returns (ref: string)
    requires |bytes| == 8
    ensures IsRef(ref) && forall i | 0 <= i < 8 :: Index(ref[2..][i]) == bytes[i] % 32
  {
    ref := "VV";
    for i := 0 to 8
      invariant |ref| == 2 + i && ref[0] == 'V' && ref[1] == 'V' && AllInAlphabet(ref[2..])
      invariant forall j | 0 <= j < i :: Index(ref[2..][j]) == bytes[j] % 32
    {
      IndexOfLetter(bytes[i] % 32);
      ghost var was := ref;
      ref := ref + [ALPHABET[bytes[i] % 32]];
      assert ref[2..] == was[2..] + [ALPHABET[bytes[i] % 32]];
    }
  }

  // ------------------------------------------------------ finding it in a description

  /** The pattern matches at position `i`. */
  predicate MatchesAt(text: string, i: nat) {
    i + 10 <= |text| && IsRef(text[i..i + 10])
  }

  /** The first match from `from` on. */
  function FirstMatch(text: string, from: nat): (r: Option<nat>)
    ensures r.Some? ==> from <= r.value && MatchesAt(text, r.value)
    ensures r.Some? ==> forall i | from <= i < r.value :: !MatchesAt(text, i)
    ensures r.None? ==> forall i | from <= i :: !MatchesAt(text, i)
    decreases |text| - from
  {
    if from + 10 > |text| then None
    else if MatchesAt(text, from) then Some(from)
    else FirstMatch(text, from + 1)
  }

  function ExtractRef(text: string): Option<string> {
    var m := FirstMatch(text, 0);
    if m.Some? then Some(text[m.value..m.value + 10]) else None
  }

  /** From position `i` of the text in front, a match can begin that runs into any reference behind it. */
  predicate Starts(before: string, i: nat) {
    && i < |before| && before[i] == 'V'
    && (i + 1 < |before| ==> before[i + 1] == 'V')
    && forall j | i + 2 <= j < |before| && j < i + 10 :: InAlphabet(before[j])
  }

  lemma RefIsInAlphabet(ref: string)
    requires IsRef(ref)
    ensures AllInAlphabet(ref)
  {
    IndexOfLetter(19);
    forall i | 2 <= i < 10 ensures InAlphabet(ref[i]) {
      assert ref[2..][i - 2] == ref[i];
    }
  }

  lemma MatchesIffStarts(before: string, ref: string, after: string, i: nat)
    requires IsRef(ref) && i < |before|
    ensures MatchesAt(before + ref + after, i) <==> Starts(before, i)
  {
    var text := before + ref + after;
    var cut := text[i..i + 10];
    assert forall j | 0 <= j < 10 :: cut[j] == if i + j < |before| then before[i + j] else ref[i + j - |before|];
    RefIsInAlphabet(ref);
    if Starts(before, i) {
      assert forall j | 0 <= j < 8 :: cut[2..][j] == cut[j + 2];
    } else if MatchesAt(text, i) {
      forall j | i + 2 <= j < |before| && j < i + 10 ensures InAlphabet(before[j]) {
        assert cut[2..][j - i - 2] == before[j];
      }
    }
  }

  /** The leftmost match is the reference exactly when no match can begin in the text in front of it. */
  lemma LeftmostIffNoStart(before: string, ref: string, after: string)
    requires IsRef(ref)
    ensures FirstMatch(before + ref + after, 0) == Some(|before|) <==>
            forall i: nat | i < |before| :: !Starts(before, i)
  {
    var text := before + ref + after;
    assert text[|before|..|before| + 10] == ref;
    assert MatchesAt(text, |before|);
    forall i: nat | i < |before| ensures MatchesAt(text, i) <==> Starts(before, i) {
      MatchesIffStarts(before, ref, after, i);
    }
  }

  /** A text in front lets every reference through exactly when no match can begin in it. */
  lemma ExtractFindsIff(before: string)
    ensures (forall ref, after | IsRef(ref) :: ExtractRef(before + ref + after) == Some(ref))
            <==> forall i: nat | i < |before| :: !Starts(before, i)
  {
    if i: nat :| i < |before| && Starts(before, i) {
      ShiftedExtract(before, i);
    } else {
      forall ref, after | IsRef(ref) ensures ExtractRef(before + ref + after) == Some(ref) {
        LeftmostIffNoStart(before, ref, after);
        assert (before + ref + after)[|before|..|before| + 10] == ref;
      }
    }
  }

  lemma {:induction false} LeastStart(before: string, i: nat) returns (p: nat)
    requires i < |before| && Starts(before, i)
    ensures p <= i && Starts(before, p) && forall j: nat | j < p :: !Starts(before, j)
    decreases i
  {
    if j: nat :| j < i && Starts(before, j) {
      p := LeastStart(before, j);
    } else {
      p := i;
    }
  }

  lemma FirstMatchIs(text: string, p: nat)
    requires MatchesAt(text, p) && forall j: nat | j < p :: !MatchesAt(text, j)
    ensures ExtractRef(text) == Some(text[p..p + 10])
  {
    assert FirstMatch(text, 0) == Some(p);
  }

  /** What is found begins at the first possible start, whatever the reference. */
  lemma ExtractsAtLeastStart(before: string, ref: string, p: nat)
    requires IsRef(ref) && p < |before| && Starts(before, p) && forall j: nat | j < p :: !Starts(before, j)
    ensures |before + ref + ""| >= p + 10 && ExtractRef(before + ref + "") == Some((before + ref + "")[p..p + 10])
  {
    var text := before + ref + "";
    forall j: nat | j <= p ensures MatchesAt(text, j) <==> Starts(before, j) {
      MatchesIffStarts(before, ref, "", j);
    }
    FirstMatchIs(text, p);
  }

  /** Where a match can begin too early, one of two references is not found. */
  lemma ShiftedExtract(before: string, i: nat)
    requires i < |before| && Starts(before, i)
    ensures exists ref, after :: IsRef(ref) && ExtractRef(before + ref + after) != Some(ref)
  {
    var a, b := "VVAAAAAAAA", "VVBBBBBBBB";
    assert IsRef(a) && IsRef(b);
    var p := LeastStart(before, i);
    ExtractsAtLeastStart(before, a, p);
    ExtractsAtLeastStart(before, b, p);
    TwoRefsDiffer(before, a, b, p);
  }

  lemma TwoRefsDiffer(before: string, a: string, b: string, p: nat)
    requires p < |before| && |a| == |b| == 10
    requires a[0] == a[1] == 'V' && (forall j | 2 <= j < 10 :: a[j] != 'V') && a != b
    ensures (before + a + "")[p..p + 10] != a || (before + b + "")[p..p + 10] != b
  {
    var d := |before| - p;
    var cut := (before + a + "")[p..p + 10];
    if d < 10 {
      assert cut[d] == a[0] && (d == 1 ==> cut[2] == a[1]);
    } else {
      assert cut == before[p..p + 10] == (before + b + "")[p..p + 10];
    }
  }

  /** The description the service builds. */
  function Description(ref: string): string {
    "Vovinam fee " + ref
  }

  /** The service's description always yields its own reference, however many V's that has. */
  lemma DescriptionRoundTrips(ref: string)
    requires IsRef(ref)
    ensures |Description(ref)| == 22 && ExtractRef(Description(ref)) == Some(ref)
  {
    ExtractFindsIff("Vovinam fee ");
    assert "Vovinam fee " + ref + "" == Description(ref);
  }

  /** A V directly in front shifts the match by one, which finds the reference only if it is all V's. */
  lemma LeadingVShifts(ref: string)
    requires IsRef(ref)
    ensures ExtractRef("V" + ref) == Some("V" + ref[..9])
    ensures ExtractRef("V" + ref) == Some(ref) <==> ref == "VVVVVVVVVV"
  {
    var text := "V" + ref + "";
    assert text == "V" + ref;
    assert Starts("V", 0);
    MatchesIffStarts("V", ref, "", 0);
    var cut := text[0..10];
    assert cut == "V" + ref[..9];
    if cut == ref {
      assert forall j | 1 <= j < 10 :: ref[j] == ref[j - 1];
      assert ref[9] == ref[8] == ref[7] == ref[6] == ref[5] == ref[4] == ref[3] == ref[2] == 'V';
    }
  }
}
