/**
 * The length-prefixed framing of the composite public keys: each component is
 * preceded by its length as four big-endian bytes.
 */
module LengthPrefix {
  import opened Prelude

  const LIMIT := 0x1_0000_0000

  datatype ParseError =
    | TruncatedPrefix
    | ComponentTooLong(length: nat, remaining: nat)

  type Parsed = Result<seq<seq<Byte>>, ParseError>

  function PackLength(n: nat): (b: seq<Byte>)
    requires n < LIMIT
    ensures |b| == 4
  {
    [n / 0x100_0000, n / 0x1_0000 % 0x100, n / 0x100 % 0x100, n % 0x100]
  }

  function UnpackLength(b: seq<Byte>): (n: nat)
    requires |b| == 4
    ensures n < LIMIT
  {
    var b0: int, b1: int, b2: int, b3: int := b[0], b[1], b[2], b[3];
    b0 * 0x100_0000 + b1 * 0x1_0000 + b2 * 0x100 + b3
  }

  /** The components `struct.pack(">I", len(c))` can frame. */
  ghost predicate AllShort(cs: seq<seq<Byte>>) {
    forall i :: 0 <= i < |cs| ==> |cs[i]| < LIMIT
  }

  function Serialise(cs: seq<seq<Byte>>): seq<Byte>
    requires AllShort(cs)
  {
    if cs == [] then [] else PackLength(|cs[0]|) + cs[0] + Serialise(cs[1..])
  }

  function Prepend(cs: seq<seq<Byte>>, p: Parsed): Parsed {
    match p
    case Success(rest) => Success(cs + rest)
    case Failure(e) => Failure(e)
  }

  /** What the parsing loop computes, by recursion on the bytes that are left. */
  function Parse(data: seq<Byte>): Parsed
    decreases |data|
  {
    if data == [] then Success([])
    else if |data| < 4 then Failure(TruncatedPrefix)
    else
      var n := UnpackLength(data[..4]);
      if n > |data| - 4 then Failure(ComponentTooLong(n, |data| - 4))
      else Prepend([data[4..4 + n]], Parse(data[4 + n..]))
  }

  lemma PrependTwice(a: seq<seq<Byte>>, b: seq<seq<Byte>>, p: Parsed)
    ensures Prepend(a, Prepend(b, p)) == Prepend(a + b, p)
  {
    if p.Success? {
      Assoc(a, b, p.value);
    }
  }

  lemma PrependNothing(cs: seq<seq<Byte>>, p: Parsed)
    ensures Prepend([], p) == p && Prepend(cs, Success([])) == Success(cs)
  {
    assert cs + [] == cs;
    if p.Success? {
      assert [] + p.value == p.value;
    }
  }

  lemma ParseFrom(data: seq<Byte>, offset: nat, n: nat)
    requires offset + 4 + n <= |data| && n == UnpackLength(data[offset..offset + 4])
    ensures Parse(data[offset..]) == Prepend([data[offset + 4..offset + 4 + n]], Parse(data[offset + 4 + n..]))
  {
    var here := data[offset..];
    assert here[..4] == data[offset..offset + 4];
    assert here[4..4 + n] == data[offset + 4..offset + 4 + n];
    assert here[4 + n..] == data[offset + 4 + n..];
  }

  lemma ParseStops(data: seq<Byte>, offset: nat)
    requires offset < |data|
    ensures offset + 4 > |data| ==> Parse(data[offset..]) == Failure(TruncatedPrefix)
    ensures offset + 4 <= |data| ==>
        var n := UnpackLength(data[offset..offset + 4]);
        offset + 4 + n > |data| ==> Parse(data[offset..]) == Failure(ComponentTooLong(n, |data| - offset - 4))
  {
  }

  lemma ParseNothing()
    ensures Parse([]) == Success([])
  {
  }

  method ParseLengthPrefixed(data: seq<Byte>) returns (r: Parsed)
    ensures r == Parse(data)
  {
    hide Parse;
    var components: seq<seq<Byte>> := [];
    var offset := 0;
    assert data[0..] == data;
    PrependNothing([], Parse(data));
    while offset < |data|
      invariant offset <= |data|
      invariant Parse(data) == Prepend(components, Parse(data[offset..]))
      decreases |data| - offset
    {
      ParseStops(data, offset);
      ghost var start := offset;
      if offset + 4 > |data| {
        return Failure(TruncatedPrefix);
      }
      var length := UnpackLength(data[offset..offset + 4]);
      offset := offset + 4;
      if offset + length > |data| {
        return Failure(ComponentTooLong(length, |data| - offset));
      }
      ParseFrom(data, start, length);
      PrependTwice(components, [data[offset..offset + length]], Parse(data[offset + length..]));
      components := components + [data[offset..offset + length]];
      offset := offset + length;
    }
    assert data[offset..] == [];
    ParseNothing();
    PrependNothing(components, Success([]));
    return Success(components);
  }

  lemma PackUnpack(b: seq<Byte>)
    requires |b| == 4
    ensures PackLength(UnpackLength(b)) == b
  {
    var b0: int, b1: int, b2: int := b[0], b[1], b[2];
    var n := UnpackLength(b);
    assert n / 0x100 == b0 * 0x1_0000 + b1 * 0x100 + b2;
    assert n / 0x1_0000 == b0 * 0x100 + b1;
    assert n / 0x100_0000 == b0;
  }

  lemma UnpackPack(n: nat)
    requires n < LIMIT
    ensures UnpackLength(PackLength(n)) == n
  {
    assert n / 0x1_0000 == n / 0x100 / 0x100;
    assert n / 0x100_0000 == n / 0x1_0000 / 0x100;
  }

  lemma {:induction false} ParseUndoesSerialise(cs: seq<seq<Byte>>)
    requires AllShort(cs)
    ensures Parse(Serialise(cs)) == Success(cs)
    decreases |cs|
  {
    hide PackLength, UnpackLength;
    if cs != [] {
      var data := Serialise(cs);
      var n := |cs[0]|;
      UnpackPack(n);
      assert data[..4] == PackLength(n);
      assert data[4..4 + n] == cs[0];
      assert data[4 + n..] == Serialise(cs[1..]);
      ParseUndoesSerialise(cs[1..]);
      assert [cs[0]] + cs[1..] == cs;
    }
  }

  lemma {:induction false} ParseStep(data: seq<Byte>)
    requires data != [] && Parse(data).Success?
    ensures |data| >= 4
    ensures var n := UnpackLength(data[..4]);
            n <= |data| - 4 && Parse(data[4 + n..]).Success?
            && Parse(data).value == [data[4..4 + n]] + Parse(data[4 + n..]).value
  {
  }

  lemma {:induction false} SerialiseStep(c: seq<Byte>, tail: seq<seq<Byte>>)
    requires |c| < LIMIT && AllShort(tail)
    ensures AllShort([c] + tail)
    ensures Serialise([c] + tail) == PackLength(|c|) + c + Serialise(tail)
  {
  }

  lemma {:induction false} SerialiseUndoesParse(data: seq<Byte>)
    requires Parse(data).Success?
    ensures AllShort(Parse(data).value)
    ensures Serialise(Parse(data).value) == data
    decreases |data|
  {
    hide PackLength, UnpackLength;
    if data != [] {
      ParseStep(data);
      var n := UnpackLength(data[..4]);
      var rest := data[4 + n..];
      SerialiseUndoesParse(rest);
      PackUnpack(data[..4]);
      SerialiseStep(data[4..4 + n], Parse(rest).value);
      assert data == data[..4] + data[4..4 + n] + rest;
    }
  }

  /** Parsing fails on exactly the byte strings that frame no list of components. */
  lemma {:induction false} ParseFailsIffNotAFraming(data: seq<Byte>)
    ensures Parse(data).Failure? <==> forall cs :: AllShort(cs) ==> Serialise(cs) != data
  {
    if Parse(data).Success? {
      SerialiseUndoesParse(data);
    } else {
      forall cs | AllShort(cs)
        ensures Serialise(cs) != data
      {
        ParseUndoesSerialise(cs);
      }
    }
  }

  /** Four bytes, the most significant one first. */
  lemma BigEndian(n: nat)
    requires n < 0x1_0000_0000
    ensures var b := PackLength(n);
            |b| == 4 && (var b0: int, b1: int, b2: int, b3: int := b[0], b[1], b[2], b[3];
                         n == b0 * 16777216 + b1 * 65536 + b2 * 256 + b3)
  {
    UnpackPack(n);
  }

  /** The composite key: each component behind its length. */
  lemma {:induction false} TwoComponents(a: seq<Byte>, b: seq<Byte>)
    requires |a| < 0x1_0000_0000 && |b| < 0x1_0000_0000
    ensures AllShort([a, b]) && Serialise([a, b]) == PackLength(|a|) + a + PackLength(|b|) + b
  {
    assert [a, b][1..] == [b] && [b][1..] == [];
    assert Serialise([b]) == PackLength(|b|) + b + [];
    assert Serialise([a, b]) == PackLength(|a|) + a + Serialise([b]);
  }

  lemma {:induction false} ParseAfter(cs: seq<seq<Byte>>, rest: seq<Byte>)
    requires AllShort(cs)
    ensures Parse(Serialise(cs) + rest) == Prepend(cs, Parse(rest))
    decreases |cs|
  {
    hide Parse, PackLength, UnpackLength;
    if cs == [] {
      assert [] + rest == rest;
      PrependNothing([], Parse(rest));
    } else {
      var data := Serialise(cs) + rest;
      var n := |cs[0]|;
      UnpackPack(n);
      SerialiseStep(cs[0], cs[1..]);
      assert [cs[0]] + cs[1..] == cs;
      assert data[0..4] == PackLength(n) && data[4..4 + n] == cs[0];
      assert data[4 + n..] == Serialise(cs[1..]) + rest;
      assert data[0..] == data;
      ParseFrom(data, 0, n);
      ParseAfter(cs[1..], rest);
      PrependTwice([cs[0]], cs[1..], Parse(rest));
    }
  }

  /** Which error, and with which numbers: decided by what is left behind the last whole component. */
  lemma {:induction false} ErrorsExactly(cs: seq<seq<Byte>>, rest: seq<Byte>)
    requires AllShort(cs)
    ensures 0 < |rest| < 4 ==> Parse(Serialise(cs) + rest) == Failure(TruncatedPrefix)
    ensures |rest| >= 4 ==>
        var b0: int, b1: int, b2: int, b3: int := rest[0], rest[1], rest[2], rest[3];
        var n := b0 * 16777216 + b1 * 65536 + b2 * 256 + b3;
        n > |rest| - 4 ==> Parse(Serialise(cs) + rest) == Failure(ComponentTooLong(n, |rest| - 4))
  {
    ParseAfter(cs, rest);
  }

  /** No two lists of components share a framing, so a fingerprint of the framing names one list. */
  lemma {:induction false} SerialiseInjective(a: seq<seq<Byte>>, b: seq<seq<Byte>>)
    requires AllShort(a) && AllShort(b)
    requires Serialise(a) == Serialise(b)
    ensures a == b
  {
    ParseUndoesSerialise(a);
    ParseUndoesSerialise(b);
  }
}
