/**
 * Python strings and their JSON string literals, section 7 of RFC 8259 with the ASCII
 * escaping of `json.dumps`. A Python string is a sequence of code points that may hold
 * lone surrogates, so it is not modelled by Dafny's `string`.
 */
module PyText {
  import opened Prelude

  type CodePoint = c: int | 0 <= c < 0x11_0000
  type PyStr = seq<CodePoint>

  /** A UTF-16 code unit: what one escape of the literal stands for. */
  type CodeUnit = u: int | 0 <= u < 0x1_0000

  predicate IsHigh(u: int) { 0xD800 <= u < 0xDC00 }
  predicate IsLow(u: int) { 0xDC00 <= u < 0xE000 }

  /** A string literal of the source. */
  function Lit(s: string): (r: PyStr)
    ensures |r| == |s|
  {
    seq(|s|, i requires 0 <= i < |s| => s[i] as int)
  }

  function UnitsOf(c: CodePoint): seq<CodeUnit> {
    if c < 0x1_0000 then [c]
    else [0xD800 + (c - 0x1_0000) / 0x400, 0xDC00 + (c - 0x1_0000) % 0x400]
  }

  function Units(s: PyStr): seq<CodeUnit> {
    if s == [] then [] else UnitsOf(s[0]) + Units(s[1..])
  }

  function Pair(high: CodeUnit, low: CodeUnit): CodePoint
    requires IsHigh(high) && IsLow(low)
  {
    var h: int, l: int := high, low;
    0x1_0000 + (h - 0xD800) * 0x400 + (l - 0xDC00)
  }

  predicate StartsWithPair(u: seq<int>) {
    |u| >= 2 && IsHigh(u[0]) && IsLow(u[1])
  }

  /** How a JSON reader turns escaped code units back into a string. */
  function Joined(u: seq<CodeUnit>): PyStr {
    if u == [] then []
    else if StartsWithPair(u) then [Pair(u[0], u[1])] + Joined(u[2..])
    else [u[0]] + Joined(u[1..])
  }

  /** No high surrogate code point stands directly before a low one. */
  ghost predicate NoSplitPair(s: PyStr) {
    forall i :: 0 <= i < |s| - 1 ==> !(IsHigh(s[i]) && IsLow(s[i + 1]))
  }

  lemma UnitsOfPair(high: CodeUnit, low: CodeUnit)
    requires IsHigh(high) && IsLow(low)
    ensures UnitsOf(Pair(high, low)) == [high, low]
  {
  }

  lemma PairOfUnits(c: CodePoint)
    requires c >= 0x1_0000
    ensures IsHigh(UnitsOf(c)[0]) && IsLow(UnitsOf(c)[1])
    ensures Pair(UnitsOf(c)[0], UnitsOf(c)[1]) == c
  {
  }

  lemma {:induction false} UnitsOfJoined(u: seq<CodeUnit>)
    ensures Units(Joined(u)) == u
    decreases |u|
  {
    if u != [] {
      var s := Joined(u);
      if StartsWithPair(u) {
        UnitsOfPair(u[0], u[1]);
        UnitsOfJoined(u[2..]);
        assert s[1..] == Joined(u[2..]);
        assert u == [u[0], u[1]] + u[2..];
      } else {
        UnitsOfJoined(u[1..]);
        assert s[1..] == Joined(u[1..]);
        assert u == [u[0]] + u[1..];
      }
    }
  }

  lemma {:induction false} JoinedHasNoSplitPair(u: seq<CodeUnit>)
    ensures NoSplitPair(Joined(u))
    ensures u != [] && !IsLow(u[0]) ==> !IsLow(Joined(u)[0])
    decreases |u|
  {
    if u != [] {
      if StartsWithPair(u) {
        JoinedHasNoSplitPair(u[2..]);
      } else {
        JoinedHasNoSplitPair(u[1..]);
      }
    }
  }

  lemma {:induction false} JoinedOfUnits(s: PyStr)
    requires NoSplitPair(s)
    ensures Joined(Units(s)) == s
    ensures s != [] ==> Units(s) != [] && (IsLow(Units(s)[0]) ==> IsLow(s[0]))
  {
    if s != [] {
      JoinedOfUnits(s[1..]);
      var u, tail := UnitsOf(s[0]), Units(s[1..]);
      if s[0] >= 0x1_0000 {
        PairOfUnits(s[0]);
        assert (u + tail)[2..] == tail;
      } else {
        assert (u + tail)[1..] == tail;
        if s[1..] != [] {
          assert s[1..][0] == s[1];
        }
      }
    }
  }

  /** Reading back what was written joins split pairs and changes nothing else. */
  function Normal(s: PyStr): PyStr {
    Joined(Units(s))
  }

  lemma NormalIffNoSplitPair(s: PyStr)
    ensures Normal(s) == s <==> NoSplitPair(s)
  {
    JoinedHasNoSplitPair(Units(s));
    if NoSplitPair(s) {
      JoinedOfUnits(s);
    }
  }

  // The escapes.

  function HexDigit(d: int): char
    requires 0 <= d < 16
  {
    if d < 10 then '0' + d as char else 'a' + (d - 10) as char
  }

  function HexValue(c: char): (d: Option<int>)
    ensures d.Some? ==> 0 <= d.value < 16
  {
    if '0' <= c <= '9' then Some((c - '0') as int)
    else if 'a' <= c <= 'f' then Some((c - 'a') as int + 10)
    else None
  }

  function Hex4(u: CodeUnit): string {
    [HexDigit(u / 0x1000), HexDigit(u / 0x100 % 16), HexDigit(u / 16 % 16), HexDigit(u % 16)]
  }

  function ReadHex4(a: char, b: char, c: char, d: char): Option<CodeUnit> {
    match (HexValue(a), HexValue(b), HexValue(c), HexValue(d))
    case (Some(w), Some(x), Some(y), Some(z)) => Some(w * 0x1000 + x * 0x100 + y * 16 + z)
    case _ => None
  }

  /** The letter of a two-character escape, and the code unit it stands for. */
  function ShortEscape(u: CodeUnit): Option<char> {
    if u == 0x22 then Some('"')
    else if u == 0x5C then Some('\\')
    else if u == 0x0A then Some('n')
    else if u == 0x0D then Some('r')
    else if u == 0x09 then Some('t')
    else if u == 0x0C then Some('f')
    else if u == 0x08 then Some('b')
    else None
  }

  function ReadShortEscape(c: char): Option<CodeUnit> {
    if c == '"' then Some(0x22)
    else if c == '\\' then Some(0x5C)
    else if c == '/' then Some(0x2F)
    else if c == 'n' then Some(0x0A)
    else if c == 'r' then Some(0x0D)
    else if c == 't' then Some(0x09)
    else if c == 'f' then Some(0x0C)
    else if c == 'b' then Some(0x08)
    else None
  }

  function EscapeUnit(u: CodeUnit): (t: string)
    ensures t != "" && t[0] != '"'
  {
    match ShortEscape(u)
    case Some(c) => ['\\', c]
    case None => if 0x20 <= u < 0x7F then [u as char] else ['\\', 'u'] + Hex4(u)
  }

  function EscapeUnits(u: seq<CodeUnit>): string {
    if u == [] then "" else EscapeUnit(u[0]) + EscapeUnits(u[1..])
  }

  /** The JSON literal `json.dumps` writes for a string. */
  function Quote(s: PyStr): string {
    ['"'] + EscapeUnits(Units(s)) + ['"']
  }

  /** Reads one escaped code unit: the unit, and how many characters it took. */
  function ReadUnit(t: string): (r: Option<(CodeUnit, nat)>)
    ensures r.Some? ==> 1 <= r.value.1 <= |t|
  {
    if t == "" then None
    else if t[0] != '\\' then
      if ' ' <= t[0] <= '~' then Some((t[0] as int, 1)) else None
    else if |t| < 2 then None
    else if t[1] != 'u' then
      match ReadShortEscape(t[1])
      case Some(u) => Some((u, 2))
      case None => None
    else if |t| < 6 then None
    else
      match ReadHex4(t[2], t[3], t[4], t[5])
      case Some(u) => Some((u, 6))
      case None => None
  }

  /** Reads the rest of a literal after its opening quote: its code units, and the text behind it. */
  function ReadUnits(t: string): (r: Option<(seq<CodeUnit>, string)>)
    ensures r.Some? ==> |r.value.1| < |t|
    decreases |t|
  {
    if t == "" then None
    else if t[0] == '"' then Some(([], t[1..]))
    else
      match ReadUnit(t)
      case None => None
      case Some((u, n)) =>
        match ReadUnits(t[n..])
        case None => None
        case Some((us, rest)) => Some(([u] + us, rest))
  }

  lemma ReadHexDigit(d: int)
    requires 0 <= d < 16
    ensures HexValue(HexDigit(d)) == Some(d)
  {
  }

  lemma HexDigitsOf(u: CodeUnit)
    ensures 0 <= u / 0x1000 < 16
    ensures u / 0x1000 * 0x1000 + u / 0x100 % 16 * 0x100 + u / 16 % 16 * 16 + u % 16 == u
  {
    var n: int := u;
    var a := n / 16;
    assert n / 0x100 == a / 16 && n / 0x1000 == a / 16 / 16;
  }

  lemma ReadBackHex4(u: CodeUnit)
    ensures var h := Hex4(u); ReadHex4(h[0], h[1], h[2], h[3]) == Some(u)
  {
    HexDigitsOf(u);
    ReadHexDigit(u / 0x1000);
    ReadHexDigit(u / 0x100 % 16);
    ReadHexDigit(u / 16 % 16);
    ReadHexDigit(u % 16);
  }

  lemma ReadBackUnit(u: CodeUnit, rest: string)
    ensures ReadUnit(EscapeUnit(u) + rest) == Some((u, |EscapeUnit(u)|))
  {
    var t := EscapeUnit(u) + rest;
    if ShortEscape(u).None? {
      if 0x20 <= u < 0x7F {
        assert t[0] == u as char;
      } else {
        ReadBackHex4(u);
        var h := Hex4(u);
        assert t[2] == h[0] && t[3] == h[1] && t[4] == h[2] && t[5] == h[3];
      }
    }
  }

  lemma {:induction false} ReadNoUnits(rest: string)
    ensures ReadUnits(['"'] + rest) == Some(([], rest))
  {
    assert (['"'] + rest)[1..] == rest;
  }

  lemma {:induction false} ReadUnitsStep(u: CodeUnit, rest: string)
    requires ReadUnits(rest).Some?
    ensures var tail := ReadUnits(rest).value;
            ReadUnits(EscapeUnit(u) + rest) == Some(([u] + tail.0, tail.1))
  {
    ReadBackUnit(u, rest);
    assert (EscapeUnit(u) + rest)[|EscapeUnit(u)|..] == rest;
  }

  lemma {:induction false} ReadBackUnits(u: seq<CodeUnit>, rest: string)
    ensures ReadUnits(EscapeUnits(u) + ['"'] + rest) == Some((u, rest))
  {
    hide ReadUnits, EscapeUnit;
    if u == [] {
      ReadNoUnits(rest);
      assert "" + ['"'] + rest == ['"'] + rest;
    } else {
      ReadBackUnits(u[1..], rest);
      var tail := EscapeUnits(u[1..]) + ['"'] + rest;
      ReadUnitsStep(u[0], tail);
      assert EscapeUnits(u) + ['"'] + rest == EscapeUnit(u[0]) + tail;
      assert [u[0]] + u[1..] == u;
    }
  }

  lemma {:induction false} ReadBackQuote(s: PyStr)
    ensures ReadUnits(Quote(s)[1..]) == Some((Units(s), ""))
  {
    ReadBackUnits(Units(s), "");
    assert Quote(s)[1..] == EscapeUnits(Units(s)) + ['"'] + "";
  }

  /**
   * Two strings have the same literal exactly when they agree after joining split surrogate
   * pairs; so the literal names its string among those without split pairs.
   */
  lemma SameLiteralIff(s: PyStr, t: PyStr)
    ensures Quote(s) == Quote(t) <==> Normal(s) == Normal(t)
  {
    UnitsOfJoined(Units(s));
    UnitsOfJoined(Units(t));
    if Quote(s) == Quote(t) {
      ReadBackQuote(s);
      ReadBackQuote(t);
    }
  }
}
