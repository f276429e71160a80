/**
 * What the JSON writer writes, in the terms of RFC 8259 and not of this project's reader:
 * string literals by section 7, numbers by section 6, and the punctuation of each text that
 * is hashed or sent.
 */
module JsonText {
  import opened Prelude
  import opened PyText
  import opened Json
  import opened Canonical
  import opened Claims

  // Strings: section 7.

  predicate HexDigitIs(c: char, d: int) {
    0 <= d < 16 && c == "0123456789abcdef"[d]
  }

  /** Backslash, u, and four lower-case hexadecimal digits whose value is the code unit. */
  ghost predicate SixCharacterEscape(u: CodeUnit, t: string) {
    |t| == 6 && t[..2] == "\\u"
    && exists a, b, c, d ::
         HexDigitIs(t[2], a) && HexDigitIs(t[3], b) && HexDigitIs(t[4], c) && HexDigitIs(t[5], d)
         && u == a * 4096 + b * 256 + c * 16 + d
  }

  /** The one way in which `json.dumps` with ASCII output writes a code unit. */
  ghost predicate Writes(u: CodeUnit, t: string) {
    if u == 0x22 then t == "\\\""
    else if u == 0x5C then t == "\\\\"
    else if u == 0x08 then t == "\\b"
    else if u == 0x0C then t == "\\f"
    else if u == 0x0A then t == "\\n"
    else if u == 0x0D then t == "\\r"
    else if u == 0x09 then t == "\\t"
    else if 0x20 <= u <= 0x7E then t == [u as char]
    else SixCharacterEscape(u, t)
  }

  lemma HexDigitOf(d: int)
    requires 0 <= d < 16
    ensures HexDigitIs(HexDigit(d), d)
  {
    var t := "0123456789abcdef";
    assert t[0] == '0' && t[1] == '1' && t[2] == '2' && t[3] == '3' && t[4] == '4' && t[5] == '5' && t[6] == '6';
    assert t[7] == '7' && t[8] == '8' && t[9] == '9' && t[10] == 'a' && t[11] == 'b' && t[12] == 'c';
    assert t[13] == 'd' && t[14] == 'e' && t[15] == 'f';
  }

  lemma HexOf(u: CodeUnit, t: string)
    requires t == ['\\', 'u'] + Hex4(u)
    ensures SixCharacterEscape(u, t)
  {
    HexDigitsOf(u);
    HexDigitOf(u / 0x1000);
    HexDigitOf(u / 0x100 % 16);
    HexDigitOf(u / 16 % 16);
    HexDigitOf(u % 16);
    assert t[..2] == "\\u";
    hide HexDigit, HexDigitIs;
    assert HexDigitIs(t[2], u / 0x1000) && HexDigitIs(t[3], u / 0x100 % 16);
    assert HexDigitIs(t[4], u / 16 % 16) && HexDigitIs(t[5], u % 16);
  }

  lemma EscapeUnitWrites(u: CodeUnit)
    ensures Writes(u, EscapeUnit(u))
  {
    hide SixCharacterEscape, Hex4;
    if ShortEscape(u).None? && !(0x20 <= u <= 0x7E) {
      HexOf(u, EscapeUnit(u));
    }
  }

  /** The text is the code units, written one after the other. */
  ghost predicate Spells(t: string, u: seq<CodeUnit>)
    decreases |u|
  {
    if u == [] then t == ""
    else exists n :: 0 < n <= |t| && Writes(u[0], t[..n]) && Spells(t[n..], u[1..])
  }

  lemma {:induction false} EscapeUnitsSpell(u: seq<CodeUnit>)
    ensures Spells(EscapeUnits(u), u)
  {
    hide Writes, EscapeUnit;
    if u != [] {
      var first, rest := EscapeUnit(u[0]), EscapeUnits(u[1..]);
      var t := EscapeUnits(u);
      EscapeUnitWrites(u[0]);
      EscapeUnitsSpell(u[1..]);
      assert t[..|first|] == first && t[|first|..] == rest;
    }
  }

  /** UTF-16, section 2.1 of RFC 2781; lone surrogates stand for themselves. */
  ghost predicate Utf16(s: PyStr, u: seq<CodeUnit>)
    decreases |s|
  {
    if s == [] then u == []
    else if s[0] < 0x1_0000 then u != [] && u[0] == s[0] && Utf16(s[1..], u[1..])
    else
      && |u| >= 2 && 0xD800 <= u[0] < 0xDC00 <= u[1] < 0xE000
      && (var high: int, low: int := u[0], u[1]; s[0] == 0x1_0000 + (high - 0xD800) * 0x400 + (low - 0xDC00))
      && Utf16(s[1..], u[2..])
  }

  lemma {:induction false} UnitsAreUtf16(s: PyStr)
    ensures Utf16(s, Units(s))
  {
    if s != [] {
      UnitsAreUtf16(s[1..]);
      assert Units(s)[|UnitsOf(s[0])|..] == Units(s[1..]);
      if s[0] >= 0x1_0000 {
        PairOfUnits(s[0]);
      }
    }
  }

  /** A string literal: quotation marks around the escaped UTF-16 code units of the string. */
  ghost predicate Literal(t: string, s: PyStr) {
    && |t| >= 2 && t[0] == '"' && t[|t| - 1] == '"'
    && exists u :: Utf16(s, u) && Spells(t[1..|t| - 1], u)
  }

  lemma {:induction false} QuoteIsLiteral(s: PyStr)
    ensures Literal(Quote(s), s)
  {
    hide Utf16, Spells;
    var t := Quote(s);
    UnitsAreUtf16(s);
    EscapeUnitsSpell(Units(s));
    assert t[1..|t| - 1] == EscapeUnits(Units(s));
  }

  // Numbers: section 6.

  function ValueOfDigits(t: string): int {
    if t == "" then 0 else ValueOfDigits(t[..|t| - 1]) * 10 + (t[|t| - 1] as int - '0' as int)
  }

  ghost predicate DigitsOf(t: string, n: nat) {
    && t != "" && (forall i :: 0 <= i < |t| ==> '0' <= t[i] <= '9')
    && (t[0] == '0' ==> |t| == 1) && ValueOfDigits(t) == n
  }

  lemma {:induction false} DigitsAre(n: nat)
    ensures DigitsOf(Digits(n), n)
    ensures n > 0 ==> Digits(n)[0] != '0'
    decreases n
  {
    var t := Digits(n);
    if n >= 10 {
      DigitsAre(n / 10);
      assert t[..|t| - 1] == Digits(n / 10);
    } else {
      assert t[..0] == "";
    }
  }

  /** An integer, with a minus sign if it is negative. */
  ghost predicate Number(t: string, n: int) {
    if n < 0 then t != "" && t[0] == '-' && DigitsOf(t[1..], -n) else DigitsOf(t, n)
  }

  lemma DecimalIsNumber(n: int)
    ensures Number(Decimal(n), n)
  {
    hide DigitsOf;
    DigitsAre(if n < 0 then -n else n);
    if n < 0 {
      assert Decimal(n)[1..] == Digits(-n);
    }
  }

  // Whole texts.

  function Join(separator: string, parts: seq<string>): string {
    if parts == [] then ""
    else if |parts| == 1 then parts[0]
    else parts[0] + separator + Join(separator, parts[1..])
  }

  function MemberTexts(ms: seq<Member>, colon: string, st: Style): (parts: seq<string>)
    ensures |parts| == |ms|
    ensures forall i :: 0 <= i < |ms| ==> parts[i] == Quote(ms[i].key) + colon + Encode(ms[i].value, st)
  {
    seq(|ms|, i requires 0 <= i < |ms| => Quote(ms[i].key) + colon + Encode(ms[i].value, st))
  }

  lemma {:induction false} MembersJoin(ms: seq<Member>, st: Style, comma: string, colon: string)
    requires ms != [] && comma == Comma(st) && colon == Colon(st)
    ensures EncodeMember(ms[0], st) + EncodeMembers(ms[1..], st) == Join(comma, MemberTexts(ms, colon, st))
  {
    var parts := MemberTexts(ms, colon, st);
    hide Quote;
    if |ms| > 1 {
      var rest := ms[1..];
      MembersJoin(rest, st, comma, colon);
      assert MemberTexts(rest, colon, st) == parts[1..];
      Assoc(parts[0], comma, Join(comma, parts[1..]));
      Assoc(comma, EncodeMember(rest[0], st), EncodeMembers(rest[1..], st));
      assert EncodeMembers(rest, st) == comma + EncodeMember(rest[0], st) + EncodeMembers(rest[1..], st);
    } else {
      assert EncodeMembers(ms[1..], st) == "";
      assert EncodeMember(ms[0], st) + "" == parts[0];
    }
  }

  /** An object: braces around its members in order, with or without a space behind each separator. */
  lemma {:induction false} ObjectText(ms: seq<Member>)
    ensures Encode(Obj(ms), Compact) == "{" + Join(",", MemberTexts(ms, ":", Compact)) + "}"
    ensures Encode(Obj(ms), Spaced) == "{" + Join(", ", MemberTexts(ms, ": ", Spaced)) + "}"
  {
    hide Quote;
    if ms != [] {
      MembersJoin(ms, Compact, ",", ":");
      MembersJoin(ms, Spaced, ", ", ": ");
      Assoc("{", EncodeMember(ms[0], Compact), EncodeMembers(ms[1..], Compact));
      Assoc("{", EncodeMember(ms[0], Spaced), EncodeMembers(ms[1..], Spaced));
    }
  }

  function ItemTexts(items: seq<Json>, st: Style): (parts: seq<string>)
    ensures |parts| == |items| && forall i :: 0 <= i < |items| ==> parts[i] == Encode(items[i], st)
  {
    seq(|items|, i requires 0 <= i < |items| => Encode(items[i], st))
  }

  lemma {:induction false} ItemsJoin(items: seq<Json>, st: Style, comma: string)
    requires items != [] && comma == Comma(st)
    ensures Encode(items[0], st) + EncodeItems(items[1..], st) == Join(comma, ItemTexts(items, st))
  {
    hide Encode;
    var parts := ItemTexts(items, st);
    if |items| > 1 {
      var rest := items[1..];
      ItemsJoin(rest, st, comma);
      assert ItemTexts(rest, st) == parts[1..];
      Assoc(parts[0], comma, Join(comma, parts[1..]));
      Assoc(comma, Encode(rest[0], st), EncodeItems(rest[1..], st));
      assert EncodeItems(rest, st) == comma + Encode(rest[0], st) + EncodeItems(rest[1..], st);
    } else {
      assert EncodeItems(items[1..], st) == "";
      assert Encode(items[0], st) + "" == parts[0];
    }
  }

  /** A list: brackets around its items in order. */
  lemma {:induction false} ListText(items: seq<Json>)
    ensures Encode(Arr(items), Compact) == "[" + Join(",", ItemTexts(items, Compact)) + "]"
    ensures Encode(Arr(items), Spaced) == "[" + Join(", ", ItemTexts(items, Spaced)) + "]"
  {
    if items != [] {
      ItemsJoin(items, Compact, ",");
      ItemsJoin(items, Spaced, ", ");
      Assoc("[", Encode(items[0], Compact), EncodeItems(items[1..], Compact));
      Assoc("[", Encode(items[0], Spaced), EncodeItems(items[1..], Spaced));
    }
  }

  lemma {:induction false} ScalarText(st: Style)
    ensures Encode(Null, st) == "null" && Encode(Bool(true), st) == "true" && Encode(Bool(false), st) == "false"
    ensures forall s :: Literal(Encode(Str(s), st), s)
    ensures forall n :: Number(Encode(Int(n), st), n)
  {
    forall s
      ensures Literal(Encode(Str(s), st), s)
    {
      QuoteIsLiteral(s);
    }
    forall n
      ensures Number(Encode(Int(n), st), n)
    {
      DecimalIsNumber(n);
    }
  }

  predicate PlainChar(c: char) {
    ' ' <= c <= '~' && c != '"' && c != '\\'
  }

  lemma {:induction false} PlainUnits(t: string)
    requires forall i :: 0 <= i < |t| ==> PlainChar(t[i])
    ensures EscapeUnits(Units(Lit(t))) == t
  {
    if t != "" {
      assert Lit(t)[1..] == Lit(t[1..]);
      PlainUnits(t[1..]);
      assert EscapeUnit(t[0] as int) == [t[0]];
      assert Units(Lit(t)) == [t[0] as int] + Units(Lit(t[1..]));
      assert t == [t[0]] + t[1..];
    }
  }

  /** A name without special characters is written as it is. */
  lemma {:induction false} PlainQuote(t: string)
    requires forall i :: 0 <= i < |t| ==> PlainChar(t[i])
    ensures Quote(Lit(t)) == ['"'] + t + ['"']
  {
    PlainUnits(t);
  }

  lemma {:induction false} JoinThree(a: string, b: string, c: string)
    ensures Join(",", [a, b, c]) == a + "," + (b + "," + c)
  {
    assert [a, b, c][1..] == [b, c] && [b, c][1..] == [c];
    assert Join(",", [c]) == c;
    assert Join(",", [b, c]) == b + "," + c;
  }

  lemma Glue(open: string, a: string, x: string, comma: string, b: string, y: string, c: string, z: string,
             close: string)
    ensures open + ((a + x) + comma + ((b + y) + comma + (c + z))) + close
         == (open + a) + x + (comma + b) + y + (comma + c) + z + close
  {
  }

  lemma Labels()
    ensures "{" + (['"'] + "exit_code" + ['"'] + ":") == "{\"exit_code\":"
    ensures "," + (['"'] + "stderr" + ['"'] + ":") == ",\"stderr\":"
    ensures "," + (['"'] + "stdout" + ['"'] + ":") == ",\"stdout\":"
  {
  }

  /** The text of the exit code: null, or the number. */
  ghost predicate ExitCodeText(t: string, code: Option<int>) {
    if code.None? then t == "null" else Number(t, code.value)
  }

  lemma {:induction false} OutputJoined(o: Output, parts: seq<string>)
    requires |parts| == 3
    requires parts[0] == Quote(Lit("exit_code")) + ":" + Encode(ExitCodeJson(o.exitCode), Compact)
    requires parts[1] == Quote(Lit("stderr")) + ":" + Quote(o.stderr)
    requires parts[2] == Quote(Lit("stdout")) + ":" + Quote(o.stdout)
    ensures OutputText(o) == "{" + Join(",", parts) + "}"
  {
    hide Quote, Lit, Encode, Join, SortKeys, MemberTexts, ExitCodeJson;
    var ms := OutputMembers(o);
    var sorted := [ms[2], ms[1], ms[0]];
    OutputKeysSorted(o);
    ObjectText(sorted);
    StringText(o.stderr);
    StringText(o.stdout);
    assert MemberTexts(sorted, ":", Compact) == parts;
  }

  lemma StringText(s: PyStr)
    ensures Encode(Str(s), Compact) == Quote(s)
  {
  }

  lemma {:induction false} OutputTextOf(o: Output, code: string, err: string, out: string)
    requires code == Encode(ExitCodeJson(o.exitCode), Compact) && err == Quote(o.stderr) && out == Quote(o.stdout)
    ensures OutputText(o) == "{\"exit_code\":" + code + ",\"stderr\":" + err + ",\"stdout\":" + out + "}"
  {
    hide Quote, Lit, Decimal, Join, Encode, OutputText;
    PlainNames();
    var a, b, c := Quote(Lit("exit_code")) + ":", Quote(Lit("stderr")) + ":", Quote(Lit("stdout")) + ":";
    OutputJoined(o, [a + code, b + err, c + out]);
    JoinThree(a + code, b + err, c + out);
    Labels();
    Glue("{", a, code, ",", b, err, c, out, "}");
  }

  lemma {:induction false} PlainNames()
    ensures Quote(Lit("exit_code")) == ['"'] + "exit_code" + ['"']
    ensures Quote(Lit("stderr")) == ['"'] + "stderr" + ['"']
    ensures Quote(Lit("stdout")) == ['"'] + "stdout" + ['"']
  {
    hide Quote;
    PlainQuote("exit_code");
    PlainQuote("stderr");
    PlainQuote("stdout");
  }

  /** The canonical output text: its literal pieces around the three values. */
  lemma {:induction false} OutputTextIs(o: Output)
    ensures exists code, err, out ::
        ExitCodeText(code, o.exitCode) && Literal(err, o.stderr) && Literal(out, o.stdout)
        && OutputText(o) == "{\"exit_code\":" + code + ",\"stderr\":" + err + ",\"stdout\":" + out + "}"
  {
    var code, err, out := Encode(ExitCodeJson(o.exitCode), Compact), Quote(o.stderr), Quote(o.stdout);
    OutputTextOf(o, code, err, out);
    ScalarText(Compact);
    QuoteIsLiteral(o.stderr);
    QuoteIsLiteral(o.stdout);
    hide Quote, Literal, Number, OutputText;
    assert ExitCodeText(code, o.exitCode);
  }

  /** The hashed environment text: the variables in code-point order of their names. */
  lemma {:induction false} EnvTextIs(env: Env) returns (sorted: seq<Member>)
    requires DistinctNames(env)
    ensures InKeyOrder(sorted) && |sorted| == |env|
    ensures forall v: Variable :: v in env <==> Member(v.name, Str(v.value)) in sorted
    ensures forall m :: m in sorted ==> m.value.Str? && Variable(m.key, m.value.s) in env
    ensures ScriptEnvText(Some(env)) == "{" + Join(",", MemberTexts(sorted, ":", Compact)) + "}"
  {
    sorted := SortKeys(EnvMembers(env));
    EmptyEnvAgrees(env);
    EnvMembersElements(env);
    SortKeysSorts(EnvMembers(env));
    SortKeysLength(EnvMembers(env));
    ObjectText(sorted);
  }

  lemma {:induction false} InsertLength(m: Member, sorted: seq<Member>)
    ensures |Insert(m, sorted)| == |sorted| + 1
  {
    if sorted != [] && !Before(m.key, sorted[0].key) {
      InsertLength(m, sorted[1..]);
    }
  }

  lemma {:induction false} SortKeysLength(ms: seq<Member>)
    ensures |SortKeys(ms)| == |ms|
  {
    if ms != [] {
      SortKeysLength(ms[1..]);
      InsertLength(ms[0], SortKeys(ms[1..]));
    }
  }

  /** Code-point order: at the first difference the smaller code point, or the end, comes first. */
  lemma {:induction false} BeforeIs(a: PyStr, b: PyStr)
    ensures Before(a, b)
            <==> exists k :: 0 <= k <= |a| && k < |b| && a[..k] == b[..k] && (k == |a| || a[k] < b[k])
  {
    if Before(a, b) {
      var k := FirstDifference(a, b);
    } else if k :| 0 <= k <= |a| && k < |b| && a[..k] == b[..k] && (k == |a| || a[k] < b[k]) {
      DifferenceOrders(a, b, k);
    }
  }

  lemma {:induction false} FirstDifference(a: PyStr, b: PyStr) returns (k: nat)
    requires Before(a, b)
    ensures k <= |a| && k < |b| && a[..k] == b[..k] && (k == |a| || a[k] < b[k])
  {
    if a == [] || a[0] < b[0] {
      k := 0;
    } else {
      k := FirstDifference(a[1..], b[1..]);
      assert a[..k + 1] == [a[0]] + a[1..][..k] && b[..k + 1] == [b[0]] + b[1..][..k];
      k := k + 1;
    }
  }

  lemma {:induction false} DifferenceOrders(a: PyStr, b: PyStr, k: nat)
    requires k <= |a| && k < |b| && a[..k] == b[..k] && (k == |a| || a[k] < b[k])
    ensures Before(a, b)
  {
    if k > 0 {
      assert a[0] == a[..k][0] && b[0] == b[..k][0];
      assert a[1..][..k - 1] == a[..k][1..] && b[1..][..k - 1] == b[..k][1..];
      DifferenceOrders(a[1..], b[1..], k - 1);
    }
  }

  /** The claims document as it is sent: the members in order, with a space behind each separator. */
  lemma {:induction false} ClaimsTextIs(doc: seq<Member>)
    ensures var text := "{" + Join(", ", MemberTexts(doc, ": ", Spaced)) + "}";
            var bytes := ClaimsBytes(doc);
            |bytes| == |text| && forall i :: 0 <= i < |text| ==> bytes[i] == text[i] as int
  {
    EncodeIsAscii(Obj(doc), Spaced);
    ObjectText(doc);
  }
}
