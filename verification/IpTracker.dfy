/**
 * Rate-limit trackers: an IPv6 text is reduced to its first 64 bits, an IPv4 text (also
 * in its IPv4-mapped form) is kept. The texts of section 2.2 of RFC 4291 without an
 * embedded dotted quad are given by their grammar, so that the string handling of the
 * tracker can be compared with the address a text denotes.
 */
module IpTracker {
  import opened Common
  import opened Options

  // ------------------------------------------------------------ string operations

  predicate Contains(s: string, c: char) {
    exists i | 0 <= i < |s| :: s[i] == c
  }

  /** Everything before the first `c`. */
  function Before(s: string, c: char): (r: string)
    ensures |r| <= |s| && !Contains(r, c)
    ensures |r| < |s| <==> Contains(s, c)
  {
    if s == [] || s[0] == c then []
    else
      var r := Before(s[1..], c);
      assert Contains(s, c) <==> Contains(s[1..], c) by {
        if Contains(s, c) {
          var i :| 0 <= i < |s| && s[i] == c;
          assert s[1..][i - 1] == c;
        }
      }
      [s[0]] + r
  }

  function Split(s: string, c: char): seq<string> {
    var head := Before(s, c);
    if |head| == |s| then [s] else [head] + Split(s[|head| + 1..], c)
  }

  function Join(gs: seq<string>, c: char): string {
    if gs == [] then "" else if |gs| == 1 then gs[0] else gs[0] + [c] + Join(gs[1..], c)
  }

  function Lower(c: char): char {
    if 'A' <= c <= 'Z' then (c as int + 32) as char else c
  }

  function LowerAll(s: string): (r: string)
    ensures |r| == |s| && forall i | 0 <= i < |s| :: r[i] == Lower(s[i])
  {
    seq(|s|, i requires 0 <= i < |s| => Lower(s[i]))
  }

  function Zeros(n: nat): (r: seq<string>)
    ensures |r| == n && forall i | 0 <= i < n :: r[i] == "0"
  {
    seq(n, _ => "0")
  }

  predicate DoubleColonAt(s: string, i: nat) {
    i + 1 < |s| && s[i] == ':' && s[i + 1] == ':'
  }

  /** Position of the first "::" from `from` on. */
  function FindDouble(s: string, from: nat): (r: Option<nat>)
    ensures r.Some? ==> from <= r.value && DoubleColonAt(s, r.value)
    ensures r.Some? ==> forall i | from <= i < r.value :: !DoubleColonAt(s, i)
    ensures r.None? ==> forall i | from <= i :: !DoubleColonAt(s, i)
    decreases |s| - from
  {
    if from + 1 >= |s| then None else if DoubleColonAt(s, from) then Some(from) else FindDouble(s, from + 1)
  }

  /** The first two pieces of the text split at "::". */
  function SplitDouble(s: string): (string, Option<string>) {
    match FindDouble(s, 0)
    case None => (s, None)
    case Some(i) =>
      var rest := s[i + 2..];
      (s[..i], Some(match FindDouble(rest, 0) case None => rest case Some(j) => rest[..j]))
  }

  predicate IsOctet(s: string) {
    1 <= |s| <= 3 && forall i | 0 <= i < |s| :: IsDigit(s[i])
  }

  /** Four groups of one to three digits. */
  predicate IsDottedQuad(s: string) {
    var parts := Split(s, '.');
    |parts| == 4 && forall i | 0 <= i < 4 :: IsOctet(parts[i])
  }

  /** The dotted quad of an IPv4-mapped text. */
  function MappedV4(clean: string): Option<string> {
    if "::ffff:" <= clean && IsDottedQuad(clean[7..]) then Some(clean[7..]) else None
  }

  function GroupsOf(s: string): seq<string> {
    if s == "" then [] else Split(s, ':')
  }

  /** Head and tail groups with the missing ones filled in. */
  function Filled(head: seq<string>, tail: seq<string>): seq<string> {
    head + Zeros(Max(8 - |head| - |tail|, 0)) + tail
  }

  /** The tracker of the groups, of which there are at least four. */
  function V6Tracker(groups: seq<string>): string
    requires |groups| >= 4
  {
    "v6-" + Join([PadStart(groups[0], 4, '0'), PadStart(groups[1], 4, '0'),
                  PadStart(groups[2], 4, '0'), PadStart(groups[3], 4, '0')], ':')
  }

  function Tracker(ip: string): string {
    if !Contains(ip, ':') then ip
    else
      var clean := LowerAll(Before(ip, '%'));
      match MappedV4(clean)
      case Some(v4) => v4
      case None =>
        var (head, tail) := SplitDouble(clean);
        V6Tracker(Filled(GroupsOf(head), if tail.Some? then GroupsOf(tail.value) else []))
  }

  // ------------------------------------------------------------------ IPv6 texts

  predicate IsGroup(s: string) {
    1 <= |s| <= 4 && AllHex(s)
  }

  function GroupValue(s: string): nat
    requires AllHex(s)
  {
    Numeral(s, 16)
  }

  /** The grammar: groups, at most one "::" standing for one or more zero groups, an optional zone. */
  datatype V6Text = V6Text(head: seq<string>, compressed: bool, tail: seq<string>, zone: Option<string>) {
    predicate Valid() {
      && (forall i | 0 <= i < |head| :: IsGroup(head[i]))
      && (forall i | 0 <= i < |tail| :: IsGroup(tail[i]))
      && (if compressed then |head| + |tail| <= 7 else |head| == 8 && tail == [])
    }

    function Body(): string {
      Join(head, ':') + if compressed then "::" + Join(tail, ':') else ""
    }

    function Text(): string {
      Body() + if zone.Some? then "%" + zone.value else ""
    }

    /** All eight groups as written, zero groups for the compressed part. */
    function Groups(): (r: seq<string>)
      requires Valid()
      ensures |r| == 8 && forall i | 0 <= i < 8 :: IsGroup(r[i])
    {
      head + Zeros(8 - |head| - |tail|) + tail
    }

    /** The first 64 bits of the address, as four 16-bit numbers. */
    function Top64(): (nat, nat, nat, nat)
      requires Valid()
    {
      (GroupValue(Groups()[0]), GroupValue(Groups()[1]), GroupValue(Groups()[2]), GroupValue(Groups()[3]))
    }
  }

  function LowerEach(gs: seq<string>): (r: seq<string>)
    ensures |r| == |gs| && forall i | 0 <= i < |gs| :: r[i] == LowerAll(gs[i])
  {
    seq(|gs|, i requires 0 <= i < |gs| => LowerAll(gs[i]))
  }

  // --------------------------------------------------------- splitting undoes joining

  lemma {:induction false} BeforePrefix(a: string, c: char, b: string)
    requires !Contains(a, c)
    ensures Before(a + [c] + b, c) == a
    decreases |a|
  {
    var s := a + [c] + b;
    if a == [] {
      assert s[0] == c;
    } else {
      assert s[0] == a[0] && s[1..] == a[1..] + [c] + b;
      assert a[0] != c;
      assert !Contains(a[1..], c) by {
        forall i | 0 <= i < |a[1..]| ensures a[1..][i] != c {
          assert a[1..][i] == a[i + 1];
        }
      }
      BeforePrefix(a[1..], c, b);
    }
  }

  lemma {:induction false} BeforeNone(a: string, c: char)
    requires !Contains(a, c)
    ensures Before(a, c) == a && Split(a, c) == [a]
    decreases |a|
  {
    if a != [] {
      assert a[0] != c;
      assert !Contains(a[1..], c) by {
        forall i | 0 <= i < |a[1..]| ensures a[1..][i] != c {
          assert a[1..][i] == a[i + 1];
        }
      }
      BeforeNone(a[1..], c);
    }
  }

  lemma {:induction false} SplitJoin(gs: seq<string>, c: char)
    requires gs != [] && forall i | 0 <= i < |gs| :: !Contains(gs[i], c)
    ensures Split(Join(gs, c), c) == gs
    decreases |gs|
  {
    if |gs| == 1 {
      BeforeNone(gs[0], c);
    } else {
      var s := Join(gs, c);
      BeforePrefix(gs[0], c, Join(gs[1..], c));
      assert s[|gs[0]| + 1..] == Join(gs[1..], c);
      SplitJoin(gs[1..], c);
    }
  }

  /** In a joined text every colon stands alone, between two other characters. */
  ghost predicate LoneColons(s: string) {
    forall i | 0 <= i < |s| && s[i] == ':' :: i + 1 < |s| && s[i + 1] != ':'
  }

  lemma {:induction false} JoinHasLoneColons(gs: seq<string>)
    requires forall i | 0 <= i < |gs| :: gs[i] != "" && !Contains(gs[i], ':')
    ensures LoneColons(Join(gs, ':'))
    ensures gs != [] ==> Join(gs, ':') != "" && Join(gs, ':')[0] != ':'
    decreases |gs|
  {
    if |gs| == 1 {
      assert gs[0][0] != ':';
    } else if |gs| > 1 {
      var rest := Join(gs[1..], ':');
      JoinHasLoneColons(gs[1..]);
      var s := Join(gs, ':');
      var n := |gs[0]|;
      assert gs[0][0] != ':';
      assert forall i | 0 <= i < n :: s[i] == gs[0][i] != ':';
      forall i | n <= i < |s| && s[i] == ':' ensures i + 1 < |s| && s[i + 1] != ':' {
        if i > n {
          assert s[i] == rest[i - n - 1];
        } else {
          assert s[i + 1] == rest[0];
        }
      }
    }
  }

  lemma {:induction false} LowerJoin(gs: seq<string>)
    ensures LowerAll(Join(gs, ':')) == Join(LowerEach(gs), ':')
    decreases |gs|
  {
    if |gs| > 1 {
      LowerJoin(gs[1..]);
      assert LowerEach(gs)[1..] == LowerEach(gs[1..]);
      assert LowerAll(Join(gs, ':')) == LowerAll(gs[0]) + ":" + LowerAll(Join(gs[1..], ':'));
    }
  }

  // ---------------------------------------------------------- the tracker of a text

  lemma GroupIsPlain(g: string)
    requires IsGroup(g)
    ensures IsGroup(LowerAll(g)) && LowerAll(g) != ""
    ensures !Contains(g, ':') && !Contains(g, '%') && !Contains(g, '.')
    ensures !Contains(LowerAll(g), ':') && !Contains(LowerAll(g), '.')
  {
  }

  lemma {:induction false} JoinLacks(gs: seq<string>, c: char)
    requires c != ':' && forall i | 0 <= i < |gs| :: !Contains(gs[i], c)
    ensures !Contains(Join(gs, ':'), c)
    decreases |gs|
  {
    if |gs| > 1 {
      JoinLacks(gs[1..], c);
    }
  }

  lemma BodyLacks(x: V6Text, c: char)
    requires x.Valid() && (c == '%' || c == '.')
    ensures !Contains(x.Body(), c)
  {
    forall i | 0 <= i < |x.head| ensures !Contains(x.head[i], c) { GroupIsPlain(x.head[i]); }
    forall i | 0 <= i < |x.tail| ensures !Contains(x.tail[i], c) { GroupIsPlain(x.tail[i]); }
    JoinLacks(x.head, c);
    JoinLacks(x.tail, c);
  }

  lemma ZoneIsStripped(x: V6Text)
    requires x.Valid()
    ensures Before(x.Text(), '%') == x.Body()
  {
    BodyLacks(x, '%');
    if x.zone.Some? {
      assert x.Text() == x.Body() + ['%'] + x.zone.value;
      BeforePrefix(x.Body(), '%', x.zone.value);
    } else {
      assert x.Text() == x.Body();
      BeforeNone(x.Body(), '%');
    }
  }

  lemma TextHasColon(x: V6Text)
    requires x.Valid()
    ensures Contains(x.Text(), ':')
  {
    if x.compressed {
      assert x.Text()[|Join(x.head, ':')|] == ':';
    } else {
      assert Join(x.head, ':') == x.head[0] + [':'] + Join(x.head[1..], ':');
      assert x.Text()[|x.head[0]|] == ':';
    }
  }

  /** The same text with its groups in lower case. */
  function Lowered(x: V6Text): V6Text {
    x.(head := LowerEach(x.head), tail := LowerEach(x.tail))
  }

  lemma LoweredIsValid(x: V6Text)
    requires x.Valid()
    ensures Lowered(x).Valid()
  {
  }

  lemma LowerBody(x: V6Text)
    ensures LowerAll(x.Body()) == Lowered(x).Body()
  {
    LowerJoin(x.head);
    LowerJoin(x.tail);
    var h, t := Join(x.head, ':'), Join(x.tail, ':');
    if x.compressed {
      assert x.Body() == h + "::" + t;
      assert LowerAll(h + "::" + t) == LowerAll(h) + "::" + LowerAll(t);
      assert Lowered(x).Body() == LowerAll(h) + "::" + LowerAll(t);
    } else {
      assert x.Body() == h;
      assert Lowered(x).Body() == LowerAll(h);
    }
  }

  lemma SplitDoubleJoined(h: string, t: string)
    requires LoneColons(h) && LoneColons(t)
    ensures SplitDouble(h + "::" + t) == (h, Some(t)) && SplitDouble(h) == (h, None)
  {
    var s := h + "::" + t;
    assert DoubleColonAt(s, |h|);
    forall i: nat | i < |h| ensures !DoubleColonAt(s, i) {
      assert s[i] == h[i];
      if h[i] == ':' {
        assert s[i + 1] == h[i + 1];
      }
    }
    assert FindDouble(s, 0) == Some(|h|);
    assert s[..|h|] == h && s[|h| + 2..] == t;
    assert FindDouble(t, 0).None? && FindDouble(h, 0).None?;
  }

  lemma JoinedGroups(gs: seq<string>)
    requires forall i | 0 <= i < |gs| :: IsGroup(gs[i])
    ensures LoneColons(Join(gs, ':')) && GroupsOf(Join(gs, ':')) == gs
  {
    forall i | 0 <= i < |gs| ensures gs[i] != "" && !Contains(gs[i], ':') { GroupIsPlain(gs[i]); }
    JoinHasLoneColons(gs);
    if gs != [] {
      SplitJoin(gs, ':');
    }
  }

  /** A text splits back into its groups. */
  lemma SplitsBack(x: V6Text)
    requires x.Valid()
    ensures var (head, tail) := SplitDouble(x.Body());
            GroupsOf(head) == x.head && (if tail.Some? then GroupsOf(tail.value) else []) == x.tail
  {
    var h, t := Join(x.head, ':'), Join(x.tail, ':');
    JoinedGroups(x.head);
    JoinedGroups(x.tail);
    SplitDoubleJoined(h, t);
    if x.compressed {
      assert x.Body() == h + "::" + t;
    } else {
      assert x.Body() == h;
    }
  }

  /** No valid text is taken for an IPv4-mapped one: it has no dot. */
  lemma NotMapped(x: V6Text)
    requires x.Valid()
    ensures MappedV4(x.Body()).None?
  {
    BodyLacks(x, '.');
    var s := x.Body();
    if |s| >= 7 {
      forall i | 0 <= i < |s[7..]| ensures s[7..][i] != '.' {
        assert s[7..][i] == s[i + 7];
      }
      BeforeNone(s[7..], '.');
    }
  }

  lemma FilledIsGroups(x: V6Text)
    requires x.Valid()
    ensures Filled(LowerEach(x.head), LowerEach(x.tail)) == LowerEach(x.Groups())
  {
    assert LowerAll("0") == "0";
  }

  /** The tracker of a valid text: its first four groups, lowered and padded. */
  lemma TrackerOfText(x: V6Text)
    requires x.Valid()
    ensures Tracker(x.Text()) == V6Tracker(LowerEach(x.Groups()))
  {
    TextHasColon(x);
    ZoneIsStripped(x);
    LowerBody(x);
    LoweredIsValid(x);
    NotMapped(Lowered(x));
    SplitsBack(Lowered(x));
    FilledIsGroups(x);
  }

  // --------------------------------------------------------- equal trackers, equal bits

  predicate IsLowerHex(c: char) { IsDigit(c) || 'a' <= c <= 'f' }

  predicate Padded(s: string) {
    |s| == 4 && forall i | 0 <= i < 4 :: IsLowerHex(s[i])
  }

  lemma {:induction false} LowerKeepsValue(s: string)
    requires AllHex(s)
    ensures AllHex(LowerAll(s)) && GroupValue(LowerAll(s)) == GroupValue(s)
    decreases |s|
  {
    if s != [] {
      var n := |s| - 1;
      assert LowerAll(s)[..n] == LowerAll(s[..n]);
      LowerKeepsValue(s[..n]);
    }
  }

  lemma {:induction false} PadKeepsValue(s: string)
    requires |s| <= 4 && AllHex(s) && forall i | 0 <= i < |s| :: IsLowerHex(s[i])
    ensures var p := PadStart(s, 4, '0'); Padded(p) && AllHex(p) && GroupValue(p) == GroupValue(s)
    decreases 4 - |s|
  {
    if |s| < 4 {
      LeadingZero(s, 16);
      PadKeepsValue("0" + s);
    }
  }

  lemma {:induction false} EqualValuesEqualText(s: string, t: string)
    requires |s| == |t| && (forall i | 0 <= i < |s| :: IsLowerHex(s[i]) && IsLowerHex(t[i]))
    requires AllHex(s) && AllHex(t) && GroupValue(s) == GroupValue(t)
    ensures s == t
    decreases |s|
  {
    if s != [] {
      var n := |s| - 1;
      assert HexValue(s[n]) == HexValue(t[n]) && GroupValue(s[..n]) == GroupValue(t[..n]);
      EqualValuesEqualText(s[..n], t[..n]);
      assert s == s[..n] + [s[n]] && t == t[..n] + [t[n]];
    }
  }

  /** The canonical spelling of a group. */
  function Canonical(g: string): string {
    PadStart(LowerAll(g), 4, '0')
  }

  lemma CanonicalDecides(g: string, h: string)
    requires IsGroup(g) && IsGroup(h)
    ensures Padded(Canonical(g)) && Padded(Canonical(h))
    ensures Canonical(g) == Canonical(h) <==> GroupValue(g) == GroupValue(h)
  {
    LowerKeepsValue(g);
    LowerKeepsValue(h);
    PadKeepsValue(LowerAll(g));
    PadKeepsValue(LowerAll(h));
    if GroupValue(g) == GroupValue(h) {
      EqualValuesEqualText(Canonical(g), Canonical(h));
    }
  }

  lemma JoinFour(a: string, b: string, c: string, d: string)
    requires |a| == |b| == |c| == |d| == 4
    ensures Join([a, b, c, d], ':') == a + ":" + b + ":" + c + ":" + d
  {
    assert [a, b, c, d][1..] == [b, c, d] && [b, c, d][1..] == [c, d] && [c, d][1..] == [d];
    assert Join([c, d], ':') == c + ":" + d;
    assert Join([b, c, d], ':') == b + ":" + (c + ":" + d);
  }

  lemma JoinFourInjective(a: string, b: string, c: string, d: string, a': string, b': string, c': string, d': string)
    requires |a| == |b| == |c| == |d| == |a'| == |b'| == |c'| == |d'| == 4
    requires Join([a, b, c, d], ':') == Join([a', b', c', d'], ':')
    ensures a == a' && b == b' && c == c' && d == d'
  {
    JoinFour(a, b, c, d);
    JoinFour(a', b', c', d');
    var s := Join([a, b, c, d], ':');
    assert a == s[..4] == a' && b == s[5..9] == b' && c == s[10..14] == c' && d == s[15..] == d';
  }

  /** Two valid texts get the same tracker exactly when their first 64 bits agree. */
  lemma SameTrackerIffSame64(x: V6Text, y: V6Text)
    requires x.Valid() && y.Valid()
    ensures Tracker(x.Text()) == Tracker(y.Text()) <==> x.Top64() == y.Top64()
  {
    TrackerOfText(x);
    TrackerOfText(y);
    var g, h := x.Groups(), y.Groups();
    CanonicalDecides(g[0], h[0]);
    CanonicalDecides(g[1], h[1]);
    CanonicalDecides(g[2], h[2]);
    CanonicalDecides(g[3], h[3]);
    if Tracker(x.Text()) == Tracker(y.Text()) {
      StripV6(Join([Canonical(g[0]), Canonical(g[1]), Canonical(g[2]), Canonical(g[3])], ':'),
              Join([Canonical(h[0]), Canonical(h[1]), Canonical(h[2]), Canonical(h[3])], ':'));
      JoinFourInjective(Canonical(g[0]), Canonical(g[1]), Canonical(g[2]), Canonical(g[3]),
                        Canonical(h[0]), Canonical(h[1]), Canonical(h[2]), Canonical(h[3]));
    }
  }

  lemma StripV6(a: string, b: string)
    requires "v6-" + a == "v6-" + b
    ensures a == b
  {
    assert a == ("v6-" + a)[3..] && b == ("v6-" + b)[3..];
  }

  /** An IPv4 text is its own tracker, plain or mapped, and never that of an IPv6 text. */
  lemma V4TrackersAreApart(v4: string, x: V6Text)
    requires IsDottedQuad(v4) && x.Valid()
    ensures Tracker(v4) == v4 && Tracker("::ffff:" + v4) == v4 && Tracker("::FFFF:" + v4) == v4
    ensures Tracker(x.Text()) != v4
  {
    QuadChars(v4);
    TrackerOfText(x);
    QuadIsNotV6(v4, Tracker(x.Text())[3..]);
    assert Tracker(x.Text()) == "v6-" + Tracker(x.Text())[3..];
    MappedKeepsQuad("::ffff:", v4);
    MappedKeepsQuad("::FFFF:", v4);
  }

  lemma QuadChars(v4: string)
    requires IsDottedQuad(v4)
    ensures forall i | 0 <= i < |v4| :: IsDigit(v4[i]) || v4[i] == '.'
    ensures !Contains(v4, ':') && !Contains(v4, '%')
  {
    forall i | 0 <= i < |v4| ensures IsDigit(v4[i]) || v4[i] == '.' {
      if v4[i] != '.' {
        SplitChars(v4, '.', i);
      }
    }
  }

  lemma QuadIsNotV6(v4: string, rest: string)
    requires forall i | 0 <= i < |v4| :: IsDigit(v4[i]) || v4[i] == '.'
    ensures v4 != "v6-" + rest
  {
    assert ("v6-" + rest)[0] == 'v';
  }

  lemma {:induction false} BeforeIsPrefix(s: string, c: char)
    ensures Before(s, c) <= s
    decreases |s|
  {
    if s != [] && s[0] != c {
      BeforeIsPrefix(s[1..], c);
      assert s == [s[0]] + s[1..];
    }
  }

  lemma {:induction false} QuadIsLower(s: string)
    requires forall i | 0 <= i < |s| :: IsDigit(s[i]) || s[i] == '.'
    ensures LowerAll(s) == s
  {
  }

  lemma {:induction false} SplitChars(s: string, c: char, i: nat)
    requires i < |s| && s[i] != c
    ensures exists k | 0 <= k < |Split(s, c)| :: Contains(Split(s, c)[k], s[i])
    decreases |s|
  {
    var head := Before(s, c);
    BeforeIsPrefix(s, c);
    var parts := Split(s, c);
    if |head| == |s| || i < |head| {
      assert parts[0][i] == s[i];
      assert Contains(parts[0], s[i]);
    } else {
      assert s[|head|] == c by { AfterBefore(s, c); }
      var rest := s[|head| + 1..];
      assert rest[i - |head| - 1] == s[i];
      SplitChars(rest, c, i - |head| - 1);
      var k :| 0 <= k < |Split(rest, c)| && Contains(Split(rest, c)[k], s[i]);
      assert parts[k + 1] == Split(rest, c)[k];
    }
  }

  lemma {:induction false} AfterBefore(s: string, c: char)
    requires |Before(s, c)| < |s|
    ensures s[|Before(s, c)|] == c
    decreases |s|
  {
    if s[0] != c {
      AfterBefore(s[1..], c);
    }
  }

  lemma MappedTracker(ip: string, v4: string)
    requires Contains(ip, ':') && LowerAll(Before(ip, '%')) == "::ffff:" + v4 && IsDottedQuad(v4)
    ensures Tracker(ip) == v4
  {
    assert ("::ffff:" + v4)[7..] == v4;
    assert MappedV4("::ffff:" + v4) == Some(v4);
  }

  lemma MappedLowers(prefix: string, v4: string)
    requires IsDottedQuad(v4) && LowerAll(prefix) == "::ffff:" && !Contains(prefix, '%')
    ensures LowerAll(Before(prefix + v4, '%')) == "::ffff:" + v4
  {
    var ip := prefix + v4;
    QuadChars(v4);
    assert !Contains(ip, '%');
    BeforeNone(ip, '%');
    QuadIsLower(v4);
    assert LowerAll(ip) == LowerAll(prefix) + LowerAll(v4);
  }

  lemma MappedKeepsQuad(prefix: string, v4: string)
    requires IsDottedQuad(v4) && LowerAll(prefix) == "::ffff:" && !Contains(prefix, '%')
    ensures Tracker(prefix + v4) == v4
  {
    assert Lower(prefix[0]) == LowerAll(prefix)[0] == ':';
    assert (prefix + v4)[0] == ':';
    MappedLowers(prefix, v4);
    MappedTracker(prefix + v4, v4);
  }

  // ------------------------------------------------------------------ trackerForIp

  /** The service's last loop: zero groups until there are eight. */
  method TopUp(given: seq<string>) returns (groups: seq<string>)
    ensures groups == given + Zeros(Max(8 - |given|, 0))
  {
    groups := given;
    while |groups| < 8
      invariant |given| <= |groups| <= Max(8, |given|)
      invariant groups == given + Zeros(|groups| - |given|)
    {
      groups := groups + ["0"];
    }
  }

  /**
   * trackerForIp: a text without a colon is kept, a mapped IPv4 text is reduced to its quad, and
   * a valid IPv6 text, in any spelling, to the canonical spelling of its first four groups.
   */
  method TrackerForIp(ip: string) returns (tracker: string)
    ensures tracker == Tracker(ip)
    ensures !Contains(ip, ':') ==> tracker == ip
    ensures forall v4 | IsDottedQuad(v4) && (ip == "::ffff:" + v4 || ip == "::FFFF:" + v4) :: tracker == v4
    ensures forall x: V6Text | x.Valid() && x.Text() == ip ::
              var g := x.Groups();
              tracker == "v6-" + Join([Canonical(g[0]), Canonical(g[1]), Canonical(g[2]), Canonical(g[3])], ':')
  {
    TrackerMeans(ip);
    if !Contains(ip, ':') {
      return ip;
    }
    var clean := LowerAll(Before(ip, '%'));
    var v4 := MappedV4(clean);
    if v4.Some? {
      return v4.value;
    }
    var (head, tail) := SplitDouble(clean);
    var headGroups := if head == "" then [] else Split(head, ':');
    var tailGroups := if tail.None? || tail.value == "" then [] else Split(tail.value, ':');
    var missing := Max(8 - |headGroups| - |tailGroups|, 0);
    var groups := TopUp(headGroups + Zeros(missing) + tailGroups);
    assert groups == headGroups + Zeros(missing) + tailGroups;
    tracker := V6Tracker(groups);
  }

  lemma TrackerMeans(ip: string)
    ensures forall v4 | IsDottedQuad(v4) && (ip == "::ffff:" + v4 || ip == "::FFFF:" + v4) :: Tracker(ip) == v4
    ensures forall x: V6Text | x.Valid() && x.Text() == ip ::
              var g := x.Groups();
              Tracker(ip) == "v6-" + Join([Canonical(g[0]), Canonical(g[1]), Canonical(g[2]), Canonical(g[3])], ':')
  {
    forall v4 | IsDottedQuad(v4) && (ip == "::ffff:" + v4 || ip == "::FFFF:" + v4) ensures Tracker(ip) == v4 {
      MappedKeepsQuad(if ip == "::ffff:" + v4 then "::ffff:" else "::FFFF:", v4);
    }
    forall x: V6Text | x.Valid() && x.Text() == ip
      ensures var g := x.Groups();
              Tracker(ip) == "v6-" + Join([Canonical(g[0]), Canonical(g[1]), Canonical(g[2]), Canonical(g[3])], ':')
    {
      TrackerOfText(x);
    }
  }
}
