/**
 * Base64, section 4 of RFC 4648: the transport form of `claims_raw`.
 * The decoder accepts canonical texts only, so it is the exact inverse of the encoder.
 */
module Base64 {
  import opened Prelude

  function Symbol(v: int): char
    requires 0 <= v < 64
  {
    if v < 26 then 'A' + v as char
    else if v < 52 then 'a' + (v - 26) as char
    else if v < 62 then '0' + (v - 52) as char
    else if v == 62 then '+'
    else '/'
  }

  function Value(c: char): (v: Option<int>)
    ensures v.Some? ==> 0 <= v.value < 64
  {
    if 'A' <= c <= 'Z' then Some((c - 'A') as int)
    else if 'a' <= c <= 'z' then Some((c - 'a') as int + 26)
    else if '0' <= c <= '9' then Some((c - '0') as int + 52)
    else if c == '+' then Some(62)
    else if c == '/' then Some(63)
    else None
  }

  lemma ValueOfSymbol(v: int)
    requires 0 <= v < 64
    ensures Value(Symbol(v)) == Some(v)
    ensures Symbol(v) != '='
  {
  }

  lemma SymbolOfValue(c: char)
    requires Value(c).Some?
    ensures Symbol(Value(c).value) == c
  {
  }

  // The four six-bit values of three bytes, and the three bytes of four six-bit values.

  function Q0(x: int): int { x / 4 }
  function Q1(x: int, y: int): int { x % 4 * 16 + y / 16 }
  function Q2(y: int, z: int): int { y % 16 * 4 + z / 64 }
  function Q3(z: int): int { z % 64 }

  function B0(p: int, q: int): int { p * 4 + q / 16 }
  function B1(q: int, r: int): int { q % 16 * 16 + r / 4 }
  function B2(r: int, s: int): int { r % 4 * 64 + s }

  lemma Split(x: Byte, y: Byte, z: Byte)
    ensures 0 <= Q0(x) < 64 && 0 <= Q1(x, y) < 64 && 0 <= Q2(y, z) < 64 && 0 <= Q3(z) < 64
    ensures B0(Q0(x), Q1(x, y)) == x && B1(Q1(x, y), Q2(y, z)) == y && B2(Q2(y, z), Q3(z)) == z
  {
  }

  lemma SplitOne(x: Byte)
    ensures 0 <= Q0(x) < 64 && 0 <= x % 4 * 16 < 64 && x % 4 * 16 % 16 == 0
    ensures B0(Q0(x), x % 4 * 16) == x
  {
  }

  lemma SplitTwo(x: Byte, y: Byte)
    ensures 0 <= Q0(x) < 64 && 0 <= Q1(x, y) < 64 && 0 <= y % 16 * 4 < 64 && y % 16 * 4 % 4 == 0
    ensures B0(Q0(x), Q1(x, y)) == x && B1(Q1(x, y), y % 16 * 4) == y
  {
  }

  lemma JoinOne(p: int, q: int)
    requires 0 <= p < 64 && 0 <= q < 64 && q % 16 == 0
    ensures 0 <= B0(p, q) < 256 && Q0(B0(p, q)) == p && B0(p, q) % 4 * 16 == q
  {
  }

  lemma JoinTwo(p: int, q: int, r: int)
    requires 0 <= p < 64 && 0 <= q < 64 && 0 <= r < 64 && r % 4 == 0
    ensures 0 <= B0(p, q) < 256 && 0 <= B1(q, r) < 256
    ensures Q0(B0(p, q)) == p && Q1(B0(p, q), B1(q, r)) == q && B1(q, r) % 16 * 4 == r
  {
  }

  lemma Join(p: int, q: int, r: int, s: int)
    requires 0 <= p < 64 && 0 <= q < 64 && 0 <= r < 64 && 0 <= s < 64
    ensures 0 <= B0(p, q) < 256 && 0 <= B1(q, r) < 256 && 0 <= B2(r, s) < 256
    ensures Q0(B0(p, q)) == p && Q1(B0(p, q), B1(q, r)) == q
    ensures Q2(B1(q, r), B2(r, s)) == r && Q3(B2(r, s)) == s
  {
  }

  function EncodeGroup(x: Byte, y: Byte, z: Byte): (t: string)
    ensures |t| == 4
  {
    Split(x, y, z);
    [Symbol(Q0(x)), Symbol(Q1(x, y)), Symbol(Q2(y, z)), Symbol(Q3(z))]
  }

  function EncodeOne(x: Byte): (t: string)
    ensures |t| == 4
  {
    SplitOne(x);
    [Symbol(Q0(x)), Symbol(x % 4 * 16), '=', '=']
  }

  function EncodeTwo(x: Byte, y: Byte): (t: string)
    ensures |t| == 4
  {
    SplitTwo(x, y);
    [Symbol(Q0(x)), Symbol(Q1(x, y)), Symbol(y % 16 * 4), '=']
  }

  function Encode(b: seq<Byte>): string {
    if b == [] then ""
    else if |b| == 1 then EncodeOne(b[0])
    else if |b| == 2 then EncodeTwo(b[0], b[1])
    else EncodeGroup(b[0], b[1], b[2]) + Encode(b[3..])
  }

  /** The bytes of a padded final group, if its spare bits are zero. */
  function DecodePadded(t: string): Option<seq<Byte>>
    requires |t| == 4
  {
    match (Value(t[0]), Value(t[1]), Value(t[2]))
    case (Some(p), Some(q), Some(r)) =>
      if t[3] == '=' && r % 4 == 0 then
        JoinTwo(p, q, r);
        Some([B0(p, q), B1(q, r)])
      else None
    case (Some(p), Some(q), None) =>
      if t[2] == '=' && t[3] == '=' && q % 16 == 0 then
        JoinOne(p, q);
        Some([B0(p, q)])
      else None
    case _ => None
  }

  function DecodeFull(t: string): Option<seq<Byte>>
    requires |t| == 4
  {
    match (Value(t[0]), Value(t[1]), Value(t[2]), Value(t[3]))
    case (Some(p), Some(q), Some(r), Some(s)) =>
      Join(p, q, r, s);
      Some([B0(p, q), B1(q, r), B2(r, s)])
    case _ => None
  }

  function Decode(t: string): Option<seq<Byte>> {
    if t == "" then Some([])
    else if |t| < 4 then None
    else
      match (DecodeFull(t[..4]), Decode(t[4..]))
      case (Some(head), Some(tail)) => Some(head + tail)
      case (None, _) => if |t| == 4 then DecodePadded(t) else None
      case _ => None
  }

  lemma SymbolsOfGroup(x: Byte, y: Byte, z: Byte)
    ensures var t := EncodeGroup(x, y, z);
            Value(t[0]) == Some(Q0(x)) && Value(t[1]) == Some(Q1(x, y))
            && Value(t[2]) == Some(Q2(y, z)) && Value(t[3]) == Some(Q3(z))
  {
    Split(x, y, z);
    ValueOfSymbol(Q0(x));
    ValueOfSymbol(Q1(x, y));
    ValueOfSymbol(Q2(y, z));
    ValueOfSymbol(Q3(z));
  }

  lemma FullGroup(x: Byte, y: Byte, z: Byte)
    ensures DecodeFull(EncodeGroup(x, y, z)) == Some([x, y, z])
  {
    SymbolsOfGroup(x, y, z);
    Split(x, y, z);
  }

  lemma PaddedOne(t: string, p: int, q: int)
    requires |t| == 4 && Value(t[0]) == Some(p) && Value(t[1]) == Some(q) && t[2] == t[3] == '='
    requires q % 16 == 0
    ensures DecodeFull(t) == None && DecodePadded(t) == Some([B0(p, q)])
  {
  }

  lemma PaddedTwo(t: string, p: int, q: int, r: int)
    requires |t| == 4 && Value(t[0]) == Some(p) && Value(t[1]) == Some(q) && Value(t[2]) == Some(r) && t[3] == '='
    requires r % 4 == 0
    ensures DecodeFull(t) == None && DecodePadded(t) == Some([B0(p, q), B1(q, r)])
  {
  }

  lemma OneByteGroup(x: Byte)
    ensures DecodeFull(EncodeOne(x)) == None && DecodePadded(EncodeOne(x)) == Some([x])
  {
    SplitOne(x);
    ValueOfSymbol(Q0(x));
    ValueOfSymbol(x % 4 * 16);
    PaddedOne(EncodeOne(x), Q0(x), x % 4 * 16);
  }

  lemma TwoByteGroup(x: Byte, y: Byte)
    ensures DecodeFull(EncodeTwo(x, y)) == None && DecodePadded(EncodeTwo(x, y)) == Some([x, y])
  {
    SplitTwo(x, y);
    ValueOfSymbol(Q0(x));
    ValueOfSymbol(Q1(x, y));
    ValueOfSymbol(y % 16 * 4);
    PaddedTwo(EncodeTwo(x, y), Q0(x), Q1(x, y), y % 16 * 4);
  }

  lemma {:induction false} DecodeLast(t: string, b: seq<Byte>)
    requires |t| == 4 && DecodeFull(t) == None && DecodePadded(t) == Some(b)
    ensures Decode(t) == Some(b)
  {
  }

  lemma OneByte(x: Byte)
    ensures Decode(EncodeOne(x)) == Some([x])
  {
    OneByteGroup(x);
    hide EncodeOne, DecodeFull, DecodePadded;
    DecodeLast(EncodeOne(x), [x]);
  }

  lemma TwoBytes(x: Byte, y: Byte)
    ensures Decode(EncodeTwo(x, y)) == Some([x, y])
  {
    TwoByteGroup(x, y);
    hide EncodeTwo, DecodeFull, DecodePadded;
    DecodeLast(EncodeTwo(x, y), [x, y]);
  }

  lemma {:induction false} DecodeStep(head: string, tail: string, b: seq<Byte>)
    requires |head| == 4 && |b| >= 3
    requires DecodeFull(head) == Some(b[..3]) && Decode(tail) == Some(b[3..])
    ensures Decode(head + tail) == Some(b)
  {
    assert (head + tail)[..4] == head && (head + tail)[4..] == tail;
    assert b == b[..3] + b[3..];
  }

  lemma {:induction false} DecodeUndoesEncode(b: seq<Byte>)
    ensures Decode(Encode(b)) == Some(b)
    decreases |b|
  {
    hide DecodeFull, DecodePadded, EncodeOne, EncodeTwo, EncodeGroup;
    if b == [] {
    } else if |b| == 1 {
      OneByte(b[0]);
      assert b == [b[0]];
    } else if |b| == 2 {
      TwoBytes(b[0], b[1]);
      assert b == [b[0], b[1]];
    } else {
      FullGroup(b[0], b[1], b[2]);
      assert [b[0], b[1], b[2]] == b[..3];
      DecodeUndoesEncode(b[3..]);
      DecodeStep(EncodeGroup(b[0], b[1], b[2]), Encode(b[3..]), b);
    }
  }

  lemma FullGroupBack(t: string)
    requires |t| == 4 && DecodeFull(t).Some?
    ensures var b := DecodeFull(t).value;
            |b| == 3 && EncodeGroup(b[0], b[1], b[2]) == t
  {
    var p, q, r, s := Value(t[0]).value, Value(t[1]).value, Value(t[2]).value, Value(t[3]).value;
    Join(p, q, r, s);
    SymbolOfValue(t[0]);
    SymbolOfValue(t[1]);
    SymbolOfValue(t[2]);
    SymbolOfValue(t[3]);
  }

  lemma PaddedGroupBack(t: string)
    requires |t| == 4 && DecodePadded(t).Some?
    ensures 1 <= |DecodePadded(t).value| <= 2 && Encode(DecodePadded(t).value) == t
  {
    var p, q := Value(t[0]).value, Value(t[1]).value;
    SymbolOfValue(t[0]);
    SymbolOfValue(t[1]);
    if Value(t[2]).Some? {
      var r := Value(t[2]).value;
      SymbolOfValue(t[2]);
      JoinTwo(p, q, r);
      assert EncodeTwo(B0(p, q), B1(q, r)) == t;
    } else {
      JoinOne(p, q);
      assert EncodeOne(B0(p, q)) == t;
    }
  }

  lemma {:induction false} EncodeUndoesDecode(t: string)
    requires Decode(t).Some?
    ensures Encode(Decode(t).value) == t
    decreases |t|
  {
    if t != "" {
      if DecodeFull(t[..4]).Some? {
        var b, tail := DecodeFull(t[..4]).value, Decode(t[4..]).value;
        FullGroupBack(t[..4]);
        EncodeUndoesDecode(t[4..]);
        assert (b + tail)[3..] == tail;
        assert t == t[..4] + t[4..];
      } else {
        PaddedGroupBack(t);
      }
    }
  }

  /** A text decodes to `b` exactly when it is the encoding of `b`. */
  lemma {:induction false} DecodeIffEncoded(t: string, b: seq<Byte>)
    ensures Decode(t) == Some(b) <==> t == Encode(b)
  {
    DecodeUndoesEncode(b);
    if Decode(t) == Some(b) {
      EncodeUndoesDecode(t);
    }
  }

  // The code of the standard.

  /** Table 1 of RFC 4648, by the ASCII codes: A to Z, a to z, 0 to 9, plus, slash. */
  lemma SymbolIs(v: int)
    requires 0 <= v < 64
    ensures Symbol(v) as int
         == if v < 26 then 65 + v else if v < 52 then 97 + (v - 26) else if v < 62 then 48 + (v - 52)
            else if v == 62 then 43 else 47
  {
  }

  lemma FourDigits(n: int, p: int, q: int, r: int, s: int)
    requires 0 <= p < 64 && 0 <= q < 64 && 0 <= r < 64 && 0 <= s < 64
    requires n == p * 262144 + q * 4096 + r * 64 + s
    ensures n / 262144 == p && n / 4096 % 64 == q && n / 64 % 64 == r && n % 64 == s
  {
    assert n / 64 == p * 4096 + q * 64 + r;
    assert n / 4096 == p * 64 + q;
    assert n / 262144 == p;
  }

  lemma Regroup(p: int, a: int, q: int, b: int, r: int, c: int)
    ensures (4 * p + a) * 65536 + (16 * q + b) * 256 + (64 * r + c)
         == p * 262144 + (a * 16 + q) * 4096 + (b * 4 + r) * 64 + c
  {
  }

  lemma Sextets(a: int, b: int, c: int)
    requires 0 <= a < 256 && 0 <= b < 256 && 0 <= c < 256
    ensures a * 65536 + b * 256 + c == Q0(a) * 262144 + Q1(a, b) * 4096 + Q2(b, c) * 64 + Q3(c)
  {
    var p, q, r := a / 4, b / 16, c / 64;
    Regroup(p, a - 4 * p, q, b - 16 * q, r, c - 64 * r);
    assert a % 4 == a - 4 * p && b % 16 == b - 16 * q && c % 64 == c - 64 * r;
  }

  lemma GroupDigits(x: Byte, y: Byte, z: Byte)
    ensures var a: int, b: int, c: int := x, y, z;
            var n := a * 65536 + b * 256 + c;
            && 0 <= n < 64 * 262144
            && n / 262144 == Q0(x) && n / 4096 % 64 == Q1(x, y) && n / 64 % 64 == Q2(y, z) && n % 64 == Q3(z)
  {
    hide Q0, Q1, Q2, Q3, B0, B1, B2;
    Split(x, y, z);
    Sextets(x, y, z);
    var a: int, b: int, c: int := x, y, z;
    FourDigits(a * 65536 + b * 256 + c, Q0(x), Q1(x, y), Q2(y, z), Q3(z));
  }

  lemma GroupSymbols(x: Byte, y: Byte, z: Byte, n0: int, n1: int, n2: int, n3: int)
    requires n0 == Q0(x) && n1 == Q1(x, y) && n2 == Q2(y, z) && n3 == Q3(z)
    ensures 0 <= n0 < 64 && 0 <= n1 < 64 && 0 <= n2 < 64 && 0 <= n3 < 64
    ensures EncodeGroup(x, y, z) == [Symbol(n0), Symbol(n1), Symbol(n2), Symbol(n3)]
  {
    Split(x, y, z);
    hide Symbol, Q0, Q1, Q2, Q3, B0, B1, B2;
  }

  /** Three bytes are one 24-bit number, written as its four digits to the base 64. */
  lemma GroupIs(x: Byte, y: Byte, z: Byte)
    ensures var a: int, b: int, c: int := x, y, z;
            var n := a * 65536 + b * 256 + c;
            && 0 <= n / 262144 < 64
            && EncodeGroup(x, y, z) == [Symbol(n / 262144), Symbol(n / 4096 % 64), Symbol(n / 64 % 64), Symbol(n % 64)]
  {
    hide EncodeGroup, Symbol, Q0, Q1, Q2, Q3, B0, B1, B2;
    var a: int, b: int, c: int := x, y, z;
    var n := a * 65536 + b * 256 + c;
    GroupDigits(x, y, z);
    GroupSymbols(x, y, z, n / 262144, n / 4096 % 64, n / 64 % 64, n % 64);
  }

  lemma SpareBits(x: Byte, y: Byte)
    ensures Q1(x, 0) == x % 4 * 16 && Q2(y, 0) == y % 16 * 4
  {
  }

  /** A single byte is filled up with zero bits, and the two missing digits are written as '='. */
  lemma {:induction false} OneByteIs(x: Byte)
    ensures Encode([x]) == EncodeGroup(x, 0, 0)[..2] + "=="
  {
    hide EncodeGroup, Symbol, Q0, Q1, Q2, Q3;
    SpareBits(x, 0);
    GroupSymbols(x, 0, 0, Q0(x), Q1(x, 0), Q2(0, 0), Q3(0));
  }

  /** Two bytes likewise, with one '='. */
  lemma {:induction false} TwoBytesAre(x: Byte, y: Byte)
    ensures Encode([x, y]) == EncodeGroup(x, y, 0)[..3] + "="
  {
    hide EncodeGroup, Symbol, Q0, Q1, Q2, Q3;
    SpareBits(x, y);
    GroupSymbols(x, y, 0, Q0(x), Q1(x, y), Q2(y, 0), Q3(0));
  }
}
