/**
 * JSON values, the text `json.dumps` writes for them, and a reader for that text
 * (the grammar of RFC 8259 without fractions and exponents, which are never written).
 */
module Json {
  import opened Prelude
  import opened PyText

  datatype Json =
    | Null
    | Bool(b: bool)
    | Int(n: int)
    | Str(s: PyStr)
    | Arr(items: seq<Json>)
    | Obj(members: seq<Member>)

  /** Members in the order of writing. */
  datatype Member = Member(key: PyStr, value: Json)

  /** `separators=(',', ':')`, or the default separators with a space behind. */
  datatype Style = Compact | Spaced

  function Comma(st: Style): string {
    if st == Compact then "," else ", "
  }

  function Colon(st: Style): string {
    if st == Compact then ":" else ": "
  }

  // Writing.

  function Digits(n: nat): (t: string)
    ensures t != "" && forall i :: 0 <= i < |t| ==> '0' <= t[i] <= '9'
  {
    var last := ['0' + (n % 10) as char];
    if n < 10 then last else Digits(n / 10) + last
  }

  function Decimal(n: int): string {
    if n < 0 then "-" + Digits(-n) else Digits(n)
  }

  function Encode(v: Json, st: Style): string
    decreases v, 1
  {
    match v
    case Null => "null"
    case Bool(b) => if b then "true" else "false"
    case Int(n) => Decimal(n)
    case Str(s) => Quote(s)
    case Arr(items) =>
      if items == [] then "[]"
      else "[" + Encode(items[0], st) + EncodeItems(items[1..], st) + "]"
    case Obj(members) =>
      if members == [] then "{}"
      else "{" + EncodeMember(members[0], st) + EncodeMembers(members[1..], st) + "}"
  }

  function EncodeItems(items: seq<Json>, st: Style): string
    decreases items, 0
  {
    if items == [] then "" else Comma(st) + Encode(items[0], st) + EncodeItems(items[1..], st)
  }

  function EncodeMember(m: Member, st: Style): string
    decreases m, 1
  {
    Quote(m.key) + Colon(st) + Encode(m.value, st)
  }

  function EncodeMembers(members: seq<Member>, st: Style): string
    decreases members, 0
  {
    if members == [] then "" else Comma(st) + EncodeMember(members[0], st) + EncodeMembers(members[1..], st)
  }

  // Reading.

  function SkipSpace(t: string): (r: string)
    ensures |r| <= |t|
  {
    if t != "" && t[0] in " \t\n\r" then SkipSpace(t[1..]) else t
  }

  predicate IsDigit(c: char) { '0' <= c <= '9' }

  function ReadDigits(t: string, value: nat): (r: (nat, string))
    ensures |r.1| <= |t|
    ensures t != "" && IsDigit(t[0]) ==> |r.1| < |t|
    decreases |t|
  {
    if t != "" && IsDigit(t[0]) then ReadDigits(t[1..], value * 10 + (t[0] - '0') as int)
    else (value, t)
  }

  function ReadNumber(t: string): (r: Option<(Json, string)>)
    ensures r.Some? ==> |r.value.1| < |t|
  {
    if t != "" && IsDigit(t[0]) then
      var (n, rest) := ReadDigits(t, 0);
      Some((Int(n), rest))
    else if |t| >= 2 && t[0] == '-' && IsDigit(t[1]) then
      var (n, rest) := ReadDigits(t[1..], 0);
      Some((Int(-(n as int)), rest))
    else None
  }

  function ReadString(t: string): (r: Option<(PyStr, string)>)
    ensures r.Some? ==> |r.value.1| < |t|
  {
    if t == "" || t[0] != '"' then None
    else
      match ReadUnits(t[1..])
      case None => None
      case Some((u, rest)) => Some((Joined(u), rest))
  }

  function ReadWord(t: string): (r: Option<(Json, string)>)
    ensures r.Some? ==> |r.value.1| < |t|
  {
    if "null" <= t then Some((Null, t[4..]))
    else if "true" <= t then Some((Bool(true), t[4..]))
    else if "false" <= t then Some((Bool(false), t[5..]))
    else None
  }

  function Read(text: string): (r: Option<(Json, string)>)
    ensures r.Some? ==> |r.value.1| < |text|
    decreases |text|, 1
  {
    var t := SkipSpace(text);
    if t == "" then None
    else if t[0] in "ntf" then ReadWord(t)
    else if t[0] == '"' then
      match ReadString(t)
      case None => None
      case Some((s, rest)) => Some((Str(s), rest))
    else if t[0] == '[' then
      match ReadArrayBody(t[1..])
      case None => None
      case Some((vs, rest)) => Some((Arr(vs), rest))
    else if t[0] == '{' then
      match ReadObjectBody(t[1..])
      case None => None
      case Some((ms, rest)) => Some((Obj(ms), rest))
    else ReadNumber(t)
  }

  function ReadArrayBody(t: string): (r: Option<(seq<Json>, string)>)
    ensures r.Some? ==> |r.value.1| < |t|
    decreases |t|, 2
  {
    if t != "" && t[0] == ']' then Some(([], t[1..]))
    else
      match Read(t)
      case None => None
      case Some((v, rest)) =>
        match ReadItems(rest)
        case None => None
        case Some((vs, rest')) => Some(([v] + vs, rest'))
  }

  function ReadObjectBody(t: string): (r: Option<(seq<Member>, string)>)
    ensures r.Some? ==> |r.value.1| < |t|
    decreases |t|, 3
  {
    if t != "" && t[0] == '}' then Some(([], t[1..]))
    else
      match ReadMember(t)
      case None => None
      case Some((m, rest)) =>
        match ReadMembers(rest)
        case None => None
        case Some((ms, rest')) => Some(([m] + ms, rest'))
  }

  function ReadItems(t: string): (r: Option<(seq<Json>, string)>)
    ensures r.Some? ==> |r.value.1| < |t|
    decreases |t|, 0
  {
    if t == "" then None
    else if t[0] == ']' then Some(([], t[1..]))
    else if t[0] != ',' then None
    else
      match Read(t[1..])
      case None => None
      case Some((v, rest)) =>
        match ReadItems(rest)
        case None => None
        case Some((vs, rest')) => Some(([v] + vs, rest'))
  }

  function ReadMember(text: string): (r: Option<(Member, string)>)
    ensures r.Some? ==> |r.value.1| < |text|
    decreases |text|, 2
  {
    match ReadString(SkipSpace(text))
    case None => None
    case Some((key, rest)) =>
      if rest == "" || rest[0] != ':' then None
      else
        match Read(rest[1..])
        case None => None
        case Some((v, rest')) => Some((Member(key, v), rest'))
  }

  function ReadMembers(t: string): (r: Option<(seq<Member>, string)>)
    ensures r.Some? ==> |r.value.1| < |t|
    decreases |t|, 0
  {
    if t == "" then None
    else if t[0] == '}' then Some(([], t[1..]))
    else if t[0] != ',' then None
    else
      match ReadMember(t[1..])
      case None => None
      case Some((m, rest)) =>
        match ReadMembers(rest)
        case None => None
        case Some((ms, rest')) => Some(([m] + ms, rest'))
  }

  /** A whole text as one value. */
  function Parse(t: string): Option<Json> {
    match Read(t)
    case Some((v, "")) => Some(v)
    case _ => None
  }

  // What reading gives back: every string with its split surrogate pairs joined.

  function NormalJson(v: Json): Json {
    match v
    case Str(s) => Str(Normal(s))
    case Arr(items) => Arr(NormalItems(items))
    case Obj(members) => Obj(NormalMembers(members))
    case _ => v
  }

  function NormalItems(items: seq<Json>): seq<Json> {
    if items == [] then [] else [NormalJson(items[0])] + NormalItems(items[1..])
  }

  function NormalMember(m: Member): Member {
    Member(Normal(m.key), NormalJson(m.value))
  }

  function NormalMembers(members: seq<Member>): seq<Member> {
    if members == [] then [] else [NormalMember(members[0])] + NormalMembers(members[1..])
  }
}
