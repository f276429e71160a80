/** Reading undoes writing, for every JSON value in both separator styles. */
module JsonRoundTrip {
  import opened Prelude
  import opened PyText
  import opened Json

  /** Text behind a value: it must not continue a number. */
  ghost predicate Stops(rest: string) {
    rest != "" ==> !IsDigit(rest[0])
  }

  // Numbers.

  lemma ReadLastDigit(n: nat, rest: string, value: nat)
    requires n < 10
    ensures ReadDigits(['0' + n as char] + rest, value) == ReadDigits(rest, value * 10 + n)
  {
  }

  lemma {:induction false} ReadBackDigits(n: nat, rest: string)
    ensures ReadDigits(Digits(n) + rest, 0) == ReadDigits(rest, n)
    decreases n
  {
    hide ReadDigits;
    var last := ['0' + (n % 10) as char];
    if n < 10 {
      ReadLastDigit(n, rest, 0);
    } else {
      ReadBackDigits(n / 10, last + rest);
      assert Digits(n) + rest == Digits(n / 10) + (last + rest);
      ReadLastDigit(n % 10, rest, n / 10);
    }
  }

  lemma {:induction false} ReadBackNatural(n: nat, rest: string)
    requires Stops(rest)
    ensures ReadNumber(Digits(n) + rest) == Some((Int(n), rest))
  {
    ReadBackDigits(n, rest);
    assert (Digits(n) + rest)[0] == Digits(n)[0];
  }

  lemma {:induction false} ReadBackNegative(n: nat, rest: string)
    requires Stops(rest)
    ensures ReadNumber("-" + Digits(n) + rest) == Some((Int(-(n as int)), rest))
  {
    ReadBackDigits(n, rest);
    var t := "-" + Digits(n) + rest;
    assert t[1..] == Digits(n) + rest;
    assert t[1] == Digits(n)[0];
  }

  // Dispatch on the first character.

  predicate IsSpace(c: char) { c in " \t\n\r" }

  lemma {:induction false} SkipNoSpace(t: string)
    requires t != "" ==> !IsSpace(t[0])
    ensures SkipSpace(t) == t
  {
  }

  lemma {:induction false} SkipPad(pad: string, t: string)
    requires pad == "" || pad == " "
    ensures SkipSpace(pad + t) == SkipSpace(t)
  {
    if pad == "" {
      assert pad + t == t;
    } else {
      assert (pad + t)[1..] == t;
    }
  }

  lemma {:induction false} ReadPadded(pad: string, t: string)
    requires pad == "" || pad == " "
    ensures Read(pad + t) == Read(t)
  {
    SkipPad(pad, t);
    SkipTwice(t);
    SkipTwice(pad + t);
    ReadSkipped(t);
    ReadSkipped(pad + t);
  }

  lemma {:induction false} SkipTwice(t: string)
    ensures SkipSpace(SkipSpace(t)) == SkipSpace(t)
  {
    if SkipSpace(t) != t {
      SkipTwice(t[1..]);
    }
  }

  lemma {:induction false} ReadSkipped(t: string)
    ensures Read(t) == Read(SkipSpace(t))
  {
    SkipTwice(t);
  }

  lemma {:induction false} FirstCharacter(v: Json, st: Style)
    ensures Encode(v, st) != ""
    ensures !IsSpace(Encode(v, st)[0]) && Encode(v, st)[0] != ']'
  {
  }

  lemma {:induction false} AfterQuote(s: PyStr, rest: string)
    ensures var t := Quote(s) + rest; t != "" && t[0] == '"' && t[1..] == EscapeUnits(Units(s)) + ['"'] + rest
  {
    hide EscapeUnits, Units;
  }

  lemma ReadBackString(s: PyStr, rest: string)
    ensures ReadString(Quote(s) + rest) == Some((Normal(s), rest))
  {
    hide Quote, EscapeUnits, ReadUnits, Units, Joined;
    AfterQuote(s, rest);
    ReadBackUnits(Units(s), rest);
  }

  lemma {:induction false} ReadOpened(open: char, t: string)
    ensures open == '[' && ReadArrayBody(t).Some? ==>
      Read([open] + t) == Some((Arr(ReadArrayBody(t).value.0), ReadArrayBody(t).value.1))
    ensures open == '{' && ReadObjectBody(t).Some? ==>
      Read([open] + t) == Some((Obj(ReadObjectBody(t).value.0), ReadObjectBody(t).value.1))
  {
  }

  // One step of each bracketed form, over any texts that read as stated.

  lemma {:induction false} ReadArray(a: string, b: string, rest: string, v: Json, vs: seq<Json>)
    requires a != "" && a[0] != ']'
    requires Read(a + b) == Some((v, b)) && ReadItems(b) == Some((vs, rest))
    ensures Read("[" + a + b) == Some((Arr([v] + vs), rest))
  {
    assert (a + b)[0] == a[0];
    ReadOpened('[', a + b);
    assert ['['] + (a + b) == "[" + a + b;
  }

  lemma {:induction false} ReadItemsStep(pad: string, a: string, b: string, rest: string, v: Json, vs: seq<Json>)
    requires pad == "" || pad == " "
    requires Read(a + b) == Some((v, b)) && ReadItems(b) == Some((vs, rest))
    ensures ReadItems("," + pad + a + b) == Some(([v] + vs, rest))
  {
    assert ("," + pad + a + b)[1..] == pad + (a + b);
    ReadPadded(pad, a + b);
  }

  lemma {:induction false} ReadObject(a: string, b: string, rest: string, m: Member, ms: seq<Member>)
    requires a != "" && a[0] != '}'
    requires ReadMember(a + b) == Some((m, b)) && ReadMembers(b) == Some((ms, rest))
    ensures Read("{" + a + b) == Some((Obj([m] + ms), rest))
  {
    assert (a + b)[0] == a[0];
    ReadOpened('{', a + b);
    assert ['{'] + (a + b) == "{" + a + b;
  }

  lemma {:induction false} ReadMembersStep(pad: string, a: string, b: string, rest: string, m: Member, ms: seq<Member>)
    requires pad == "" || pad == " "
    requires ReadMember(a + b) == Some((m, b)) && ReadMembers(b) == Some((ms, rest))
    ensures ReadMembers("," + pad + a + b) == Some(([m] + ms, rest))
  {
    assert ("," + pad + a + b)[1..] == pad + (a + b);
    SkipPad(pad, a + b);
  }

  lemma {:induction false} ReadMemberStep(key: PyStr, pad: string, a: string, rest: string, v: Json)
    requires pad == "" || pad == " "
    requires Read(a + rest) == Some((v, rest))
    ensures ReadMember(Quote(key) + (":" + pad + a + rest)) == Some((Member(Normal(key), v), rest))
  {
    var behind := ":" + pad + a + rest;
    ReadBackString(key, behind);
    SkipNoSpace(Quote(key) + behind);
    SkipNoSpace(behind);
    hide Quote, ReadString, Normal, Read, SkipSpace;
    assert behind[1..] == pad + (a + rest);
    ReadPadded(pad, a + rest);
  }

  function Pad(st: Style): string {
    if st == Compact then "" else " "
  }

  lemma {:induction false} ReadScalar(v: Json, st: Style, rest: string)
    requires v.Null? || v.Bool? || v.Int? || v.Str?
    requires Stops(rest)
    ensures Read(Encode(v, st) + rest) == Some((NormalJson(v), rest))
  {
    match v
    case Int(n) => ReadInt(n, st, rest);
    case Str(s) =>
      SkipNoSpace(Encode(v, st) + rest);
      ReadBackString(s, rest);
    case _ => SkipNoSpace(Encode(v, st) + rest);
  }

  lemma {:induction false} ReadInt(n: int, st: Style, rest: string)
    requires Stops(rest)
    ensures Read(Encode(Int(n), st) + rest) == Some((Int(n), rest))
  {
    var t := Encode(Int(n), st) + rest;
    SkipNoSpace(t);
    if n < 0 {
      ReadBackNegative(-n, rest);
    } else {
      ReadBackNatural(n, rest);
      assert t[0] == Digits(n)[0];
    }
  }

  lemma Regroup(open: string, x: string, y: string, close: string, rest: string)
    ensures open + x + y + close + rest == open + x + (y + close + rest)
  {
  }

  lemma RegroupStep(pad: string, x: string, y: string, close: string, rest: string)
    ensures "," + pad + x + y + close + rest == "," + pad + x + (y + close + rest)
  {
  }

  lemma Separators(st: Style)
    ensures Comma(st) == "," + Pad(st) && Colon(st) == ":" + Pad(st)
  {
  }

  lemma RegroupMember(key: string, pad: string, x: string, rest: string)
    ensures key + (":" + pad) + x + rest == key + (":" + pad + x + rest)
  {
  }

  lemma {:induction false} ReadBack(v: Json, st: Style, rest: string)
    requires Stops(rest)
    ensures Read(Encode(v, st) + rest) == Some((NormalJson(v), rest))
    decreases v, 1
  {
    if v.Arr? && v.items != [] {
      ReadBackArray(v.items, st, rest);
    } else if v.Obj? && v.members != [] {
      ReadBackObject(v.members, st, rest);
    } else if v.Arr? || v.Obj? {
      SkipNoSpace(Encode(v, st) + rest);
    } else {
      ReadScalar(v, st, rest);
    }
  }

  lemma {:induction false} ReadBackArray(items: seq<Json>, st: Style, rest: string)
    requires items != []
    ensures Read(Encode(Arr(items), st) + rest) == Some((Arr(NormalItems(items)), rest))
    decreases items, 2
  {
    var a, b := Encode(items[0], st), EncodeItems(items[1..], st) + "]" + rest;
    ReadBackItems(items[1..], st, rest);
    ReadBack(items[0], st, b);
    FirstCharacter(items[0], st);
    ReadArray(a, b, rest, NormalJson(items[0]), NormalItems(items[1..]));
    Regroup("[", a, EncodeItems(items[1..], st), "]", rest);
  }

  lemma {:induction false} ReadBackObject(members: seq<Member>, st: Style, rest: string)
    requires members != []
    ensures Read(Encode(Obj(members), st) + rest) == Some((Obj(NormalMembers(members)), rest))
    decreases members, 2
  {
    var a, b := EncodeMember(members[0], st), EncodeMembers(members[1..], st) + "}" + rest;
    ReadBackMembers(members[1..], st, rest);
    ReadBackMember(members[0], st, b);
    ReadObject(a, b, rest, NormalMember(members[0]), NormalMembers(members[1..]));
    Regroup("{", a, EncodeMembers(members[1..], st), "}", rest);
  }

  lemma {:induction false} ReadBackItems(items: seq<Json>, st: Style, rest: string)
    ensures ReadItems(EncodeItems(items, st) + "]" + rest) == Some((NormalItems(items), rest))
    ensures Stops(EncodeItems(items, st) + "]" + rest)
    decreases items, 0
  {
    if items == [] {
      assert ("" + "]" + rest)[1..] == rest;
    } else {
      var a, b := Encode(items[0], st), EncodeItems(items[1..], st) + "]" + rest;
      ReadBackItems(items[1..], st, rest);
      ReadBack(items[0], st, b);
      ReadItemsStep(Pad(st), a, b, rest, NormalJson(items[0]), NormalItems(items[1..]));
      Separators(st);
      RegroupStep(Pad(st), a, EncodeItems(items[1..], st), "]", rest);
    }
  }

  lemma {:induction false} ReadBackMember(m: Member, st: Style, rest: string)
    requires Stops(rest)
    ensures ReadMember(EncodeMember(m, st) + rest) == Some((NormalMember(m), rest))
    decreases m, 1
  {
    ReadBack(m.value, st, rest);
    ReadMemberStep(m.key, Pad(st), Encode(m.value, st), rest, NormalJson(m.value));
    Separators(st);
    RegroupMember(Quote(m.key), Pad(st), Encode(m.value, st), rest);
  }

  lemma {:induction false} ReadBackMembers(members: seq<Member>, st: Style, rest: string)
    ensures ReadMembers(EncodeMembers(members, st) + "}" + rest) == Some((NormalMembers(members), rest))
    ensures Stops(EncodeMembers(members, st) + "}" + rest)
    decreases members, 0
  {
    if members == [] {
      assert ("" + "}" + rest)[1..] == rest;
    } else {
      var a, b := EncodeMember(members[0], st), EncodeMembers(members[1..], st) + "}" + rest;
      ReadBackMembers(members[1..], st, rest);
      ReadBackMember(members[0], st, b);
      ReadMembersStep(Pad(st), a, b, rest, NormalMember(members[0]), NormalMembers(members[1..]));
      Separators(st);
      RegroupStep(Pad(st), a, EncodeMembers(members[1..], st), "}", rest);
    }
  }

  /** Parsing a written document gives it back, with split surrogate pairs joined. */
  lemma {:induction false} ParseUndoesEncode(v: Json, st: Style)
    ensures Parse(Encode(v, st)) == Some(NormalJson(v))
  {
    ReadBack(v, st, "");
    assert Encode(v, st) + "" == Encode(v, st);
  }

  lemma {:induction false} EncodeNormal(v: Json, st: Style)
    ensures Encode(NormalJson(v), st) == Encode(v, st)
    decreases v, 1
  {
    match v
    case Str(s) => UnitsOfJoined(Units(s));
    case Arr(items) =>
      if items != [] {
        EncodeNormal(items[0], st);
        EncodeNormalItems(items[1..], st);
        assert NormalItems(items)[1..] == NormalItems(items[1..]);
      }
    case Obj(members) =>
      if members != [] {
        EncodeNormalMember(members[0], st);
        EncodeNormalMembers(members[1..], st);
        assert NormalMembers(members)[1..] == NormalMembers(members[1..]);
      }
    case _ =>
  }

  lemma {:induction false} EncodeNormalItems(items: seq<Json>, st: Style)
    ensures EncodeItems(NormalItems(items), st) == EncodeItems(items, st)
    decreases items, 0
  {
    if items != [] {
      EncodeNormal(items[0], st);
      EncodeNormalItems(items[1..], st);
      assert NormalItems(items)[1..] == NormalItems(items[1..]);
    }
  }

  lemma {:induction false} EncodeNormalMember(m: Member, st: Style)
    ensures EncodeMember(NormalMember(m), st) == EncodeMember(m, st)
    decreases m, 1
  {
    EncodeNormal(m.value, st);
    UnitsOfJoined(Units(m.key));
  }

  lemma {:induction false} EncodeNormalMembers(members: seq<Member>, st: Style)
    ensures EncodeMembers(NormalMembers(members), st) == EncodeMembers(members, st)
    decreases members, 0
  {
    if members != [] {
      EncodeNormalMember(members[0], st);
      EncodeNormalMembers(members[1..], st);
      assert NormalMembers(members)[1..] == NormalMembers(members[1..]);
    }
  }

  /** Two documents have the same text exactly when they agree after joining split surrogate pairs. */
  lemma {:induction false} SameTextIff(v: Json, w: Json, st: Style)
    ensures Encode(v, st) == Encode(w, st) <==> NormalJson(v) == NormalJson(w)
  {
    ParseUndoesEncode(v, st);
    ParseUndoesEncode(w, st);
    EncodeNormal(v, st);
    EncodeNormal(w, st);
  }
}
