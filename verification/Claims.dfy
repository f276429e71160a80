/**
 * The claims document, its binding to the signed envelope by a digest of the exact bytes
 * sent, and the check the README asks of a verifier. The hash is a parameter.
 */
module Claims {
  import opened Prelude
  import opened PyText
  import opened Json
  import opened JsonRoundTrip
  import opened Canonical
  import Base64

  const ENVELOPE_VERSION := 1
  const CLAIMS_SCHEMA_VERSION := "1.0"

  /** `sha256(...).hexdigest()`; only its being a function of the bytes is used. */
  type Hash = seq<Byte> -> PyStr

  /** The verifier's base64 decoder, strict or lax. */
  type Decoder = string -> Option<seq<Byte>>

  datatype Envelope = Envelope(v: int, claimsDigest: PyStr, timestamp: PyStr, executionId: Option<PyStr>)

  // Texts as bytes.

  ghost predicate AsciiText(t: string) {
    forall i :: 0 <= i < |t| ==> t[i] < '\U{80}'
  }

  function Bytes(t: string): (b: seq<Byte>)
    requires AsciiText(t)
    ensures |b| == |t|
  {
    seq(|t|, i requires 0 <= i < |t| => t[i] as int)
  }

  function TextOf(b: seq<Byte>): Option<string> {
    if forall i :: 0 <= i < |b| ==> b[i] < 0x80 then
      Some(seq(|b|, i requires 0 <= i < |b| => b[i] as char))
    else None
  }

  lemma TextOfBytes(t: string)
    requires AsciiText(t)
    ensures TextOf(Bytes(t)) == Some(t)
  {
    var b := Bytes(t);
    assert seq(|b|, i requires 0 <= i < |b| => b[i] as char) == t;
  }

  lemma {:induction false} QuoteIsAscii(u: seq<CodeUnit>)
    ensures AsciiText(EscapeUnits(u))
  {
    if u != [] {
      QuoteIsAscii(u[1..]);
    }
  }

  lemma {:induction false} ScalarIsAscii(v: Json, st: Style)
    requires !v.Arr? && !v.Obj?
    ensures AsciiText(Encode(v, st))
  {
    if v.Str? {
      QuoteIsAscii(Units(v.s));
    }
  }

  lemma BracketsAreAscii(open: string, a: string, b: string, close: string)
    requires AsciiText(open) && AsciiText(a) && AsciiText(b) && AsciiText(close)
    ensures AsciiText(open + a + b + close)
  {
  }

  lemma {:induction false} EncodeIsAscii(v: Json, st: Style)
    ensures AsciiText(Encode(v, st))
    decreases v, 1
  {
    if v.Arr? && v.items != [] {
      EncodeIsAscii(v.items[0], st);
      EncodeItemsIsAscii(v.items[1..], st);
      BracketsAreAscii("[", Encode(v.items[0], st), EncodeItems(v.items[1..], st), "]");
    } else if v.Obj? && v.members != [] {
      EncodeMemberIsAscii(v.members[0], st);
      EncodeMembersIsAscii(v.members[1..], st);
      BracketsAreAscii("{", EncodeMember(v.members[0], st), EncodeMembers(v.members[1..], st), "}");
    } else if !v.Arr? && !v.Obj? {
      ScalarIsAscii(v, st);
    }
  }

  lemma {:induction false} EncodeItemsIsAscii(items: seq<Json>, st: Style)
    ensures AsciiText(EncodeItems(items, st))
    decreases items, 0
  {
    if items != [] {
      EncodeIsAscii(items[0], st);
      EncodeItemsIsAscii(items[1..], st);
    }
  }

  lemma {:induction false} EncodeMemberIsAscii(m: Member, st: Style)
    ensures AsciiText(EncodeMember(m, st))
    decreases m, 1
  {
    QuoteIsAscii(Units(m.key));
    EncodeIsAscii(m.value, st);
  }

  lemma {:induction false} EncodeMembersIsAscii(members: seq<Member>, st: Style)
    ensures AsciiText(EncodeMembers(members, st))
    decreases members, 0
  {
    if members != [] {
      EncodeMemberIsAscii(members[0], st);
      EncodeMembersIsAscii(members[1..], st);
    }
  }

  // Building and finalising.

  /** `d[key] = value` on a dictionary in insertion order. */
  function Assign(d: seq<Member>, m: Member): seq<Member> {
    if d == [] then [m]
    else if d[0].key == m.key then [m] + d[1..]
    else [d[0]] + Assign(d[1..], m)
  }

  function AssignAll(d: seq<Member>, fields: seq<Member>): seq<Member>
    decreases |fields|
  {
    if fields == [] then d else AssignAll(Assign(d, fields[0]), fields[1..])
  }

  function SchemaVersion(): Member {
    Member(Lit("schema_version"), Str(Lit(CLAIMS_SCHEMA_VERSION)))
  }

  /** `build_claims_document`; the source raises ValueError for any other kind. */
  function BuildClaimsDocument(kind: string, fields: seq<Member>): Result<seq<Member>, string> {
    if kind == "execution" || kind == "output" then Success(AssignAll([SchemaVersion()], fields))
    else Failure("Unknown claims kind")
  }

  function ClaimsBytes(doc: seq<Member>): seq<Byte> {
    EncodeIsAscii(Obj(doc), Spaced);
    Bytes(Encode(Obj(doc), Spaced))
  }

  function Digest(h: Hash, b: seq<Byte>): PyStr {
    Lit("sha256:") + h(b)
  }

  /** `_finalize_claims`: the envelope that is signed, and the `claims_raw` sent beside it. */
  function FinalizeClaims(h: Hash, doc: seq<Member>, executionId: Option<PyStr>, timestamp: PyStr): (Envelope, string) {
    var bytes := ClaimsBytes(doc);
    (Envelope(ENVELOPE_VERSION, Digest(h, bytes), timestamp, executionId), Base64.Encode(bytes))
  }

  // The verifier of the README.

  function ValueAt(doc: seq<Member>, key: PyStr): Option<Json> {
    if doc == [] then None
    else if doc[0].key == key then Some(doc[0].value)
    else ValueAt(doc[1..], key)
  }

  predicate MajorVersionKnown(v: Option<Json>) {
    v.Some? && v.value.Str?
    && (v.value.s == Lit("1") || (|v.value.s| >= 2 && v.value.s[..2] == Lit("1.")))
  }

  function Verify(h: Hash, decode: Decoder, envelope: Envelope, claimsRaw: Option<string>): Option<seq<Member>> {
    if envelope.v != ENVELOPE_VERSION || claimsRaw.None? then None
    else
      match decode(claimsRaw.value)
      case None => None
      case Some(bytes) =>
        if envelope.claimsDigest != Digest(h, bytes) then None
        else ReadClaims(bytes)
  }

  function ReadClaims(bytes: seq<Byte>): Option<seq<Member>> {
    match TextOf(bytes)
    case None => None
    case Some(text) =>
      match Parse(text)
      case Some(Obj(doc)) => if MajorVersionKnown(ValueAt(doc, Lit("schema_version"))) then Some(doc) else None
      case _ => None
  }

  lemma {:induction false} ParseClaims(doc: seq<Member>)
    ensures TextOf(ClaimsBytes(doc)) == Some(Encode(Obj(doc), Spaced))
    ensures Parse(Encode(Obj(doc), Spaced)) == Some(Obj(NormalMembers(doc)))
  {
    EncodeIsAscii(Obj(doc), Spaced);
    TextOfBytes(Encode(Obj(doc), Spaced));
    ParseUndoesEncode(Obj(doc), Spaced);
  }

  lemma DigestsDiffer(h: Hash, x: seq<Byte>, y: seq<Byte>)
    ensures Digest(h, x) == Digest(h, y) <==> h(x) == h(y)
  {
    var p := Lit("sha256:");
    assert Digest(h, x)[|p|..] == h(x) && Digest(h, y)[|p|..] == h(y);
  }

  predicate Recovers(decode: Decoder, raw: Option<string>, bytes: seq<Byte>) {
    raw.Some? && decode(raw.value) == Some(bytes)
  }

  /** The bytes in `raw` are the signed ones, or the hash tells them apart. */
  ghost predicate NoCollision(h: Hash, decode: Decoder, raw: Option<string>, signed: seq<Byte>) {
    raw.Some? && decode(raw.value).Some? && h(decode(raw.value).value) == h(signed) ==> Recovers(decode, raw, signed)
  }

  /**
   * For every decoder, every document and every `claims_raw` or none: the documented check
   * accepts exactly the `claims_raw` that decodes to the signed bytes, and reads back the
   * signed document, if its schema version is known; everything else it rejects.
   */
  lemma {:induction false} VerifierAcceptsExactlyWhatWasBuilt(
      h: Hash, decode: Decoder, doc: seq<Member>, executionId: Option<PyStr>, timestamp: PyStr, raw: Option<string>)
    requires NoCollision(h, decode, raw, ClaimsBytes(doc))
    ensures Verify(h, decode, FinalizeClaims(h, doc, executionId, timestamp).0, raw)
            == if Recovers(decode, raw, ClaimsBytes(doc))
                  && MajorVersionKnown(ValueAt(NormalMembers(doc), Lit("schema_version")))
               then Some(NormalMembers(doc)) else None
  {
    var signed := ClaimsBytes(doc);
    ParseClaims(doc);
    hide ClaimsBytes, Base64.Encode, TextOf, Parse, MajorVersionKnown, ValueAt, NormalMembers, Digest;
    if raw.Some? && decode(raw.value).Some? {
      DigestsDiffer(h, decode(raw.value).value, signed);
    }
  }

  /** With a strict decoder that is the `claims_raw` that was built, and no other. */
  lemma {:induction false} StrictDecoderRecovers(raw: Option<string>, bytes: seq<Byte>)
    ensures Recovers(Base64.Decode, raw, bytes) <==> raw == Some(Base64.Encode(bytes))
  {
    hide Base64.Decode, Base64.Encode;
    if raw.Some? {
      Base64.DecodeIffEncoded(raw.value, bytes);
    }
  }

  // Documents that were built have a known version.

  lemma LitIsNormal(s: string)
    requires AsciiText(s)
    ensures Normal(Lit(s)) == Lit(s)
  {
    assert forall i :: 0 <= i < |s| ==> Lit(s)[i] == s[i] as int;
    NormalIffNoSplitPair(Lit(s));
  }

  lemma {:induction false} AssignKeepsFirst(d: seq<Member>, fields: seq<Member>)
    requires d != [] && forall f :: f in fields ==> f.key != d[0].key
    ensures AssignAll(d, fields) != [] && AssignAll(d, fields)[0] == d[0]
    decreases |fields|
  {
    if fields != [] {
      assert fields[0] in fields;
      AssignKeepsFirst(Assign(d, fields[0]), fields[1..]);
    }
  }

  lemma VersionIsNormal()
    ensures NormalMember(SchemaVersion()) == SchemaVersion()
  {
    LitIsNormal("schema_version");
    LitIsNormal(CLAIMS_SCHEMA_VERSION);
  }

  lemma VersionIsKnown()
    ensures MajorVersionKnown(Some(SchemaVersion().value))
  {
    assert Lit(CLAIMS_SCHEMA_VERSION)[..2] == Lit("1.");
  }

  lemma {:induction false} VersionFirstIsKnown(doc: seq<Member>)
    requires doc != [] && doc[0] == SchemaVersion()
    ensures MajorVersionKnown(ValueAt(NormalMembers(doc), Lit("schema_version")))
  {
    hide MajorVersionKnown, NormalMember, Lit;
    VersionIsNormal();
    VersionIsKnown();
  }

  /** Whatever the fields, unless one of them is named like the version. */
  lemma {:induction false} BuiltVersionKnown(kind: string, fields: seq<Member>, doc: seq<Member>)
    requires BuildClaimsDocument(kind, fields) == Success(doc)
    requires forall f :: f in fields ==> f.key != Lit("schema_version")
    ensures MajorVersionKnown(ValueAt(NormalMembers(doc), Lit("schema_version")))
  {
    hide MajorVersionKnown, ValueAt, NormalMembers;
    AssignKeepsFirst([SchemaVersion()], fields);
    VersionFirstIsKnown(doc);
  }

  /**
   * The claims binding: with any decoder that undoes the encoding, what
   * `build_claims_document` and `_finalize_claims` produce is accepted and read back; a
   * `claims_raw` that is missing, or decodes to other bytes or to none, is rejected.
   */
  lemma {:induction false} BuiltClaimsAreBound(
      h: Hash, decode: Decoder, kind: string, fields: seq<Member>, doc: seq<Member>, executionId: Option<PyStr>,
      timestamp: PyStr, raw: Option<string>)
    requires BuildClaimsDocument(kind, fields) == Success(doc)
    requires forall f :: f in fields ==> f.key != Lit("schema_version")
    requires decode(Base64.Encode(ClaimsBytes(doc))) == Some(ClaimsBytes(doc))
    requires NoCollision(h, decode, raw, ClaimsBytes(doc))
    ensures var (envelope, built) := FinalizeClaims(h, doc, executionId, timestamp);
            && Verify(h, decode, envelope, Some(built)) == Some(NormalMembers(doc))
            && Verify(h, decode, envelope, raw)
               == if Recovers(decode, raw, ClaimsBytes(doc)) then Some(NormalMembers(doc)) else None
  {
    BuiltVersionKnown(kind, fields, doc);
    VerifierAcceptsExactlyWhatWasBuilt(h, decode, doc, executionId, timestamp, raw);
    VerifierAcceptsExactlyWhatWasBuilt(h, decode, doc, executionId, timestamp, Some(Base64.Encode(ClaimsBytes(doc))));
  }

  /** Looking a name up finds exactly the member with that name. */
  lemma {:induction false} LookupIs(doc: seq<Member>, key: PyStr, v: Json)
    requires DistinctKeys(doc)
    ensures ValueAt(doc, key) == Some(v) <==> Member(key, v) in doc
  {
    if doc != [] {
      LookupIs(doc[1..], key, v);
      assert doc == [doc[0]] + doc[1..];
    }
  }

  lemma {:induction false} AssignLooksUp(d: seq<Member>, m: Member, key: PyStr)
    ensures ValueAt(Assign(d, m), key) == if key == m.key then Some(m.value) else ValueAt(d, key)
  {
    if d != [] && d[0].key != m.key {
      AssignLooksUp(d[1..], m, key);
      assert Assign(d, m)[1..] == Assign(d[1..], m);
    }
  }

  /** The value of the last field of this name, if there is one. */
  function LastValue(fields: seq<Member>, key: PyStr): Option<Json> {
    if fields == [] then None
    else if fields[|fields| - 1].key == key then Some(fields[|fields| - 1].value)
    else LastValue(fields[..|fields| - 1], key)
  }

  lemma {:induction false} LastValueOfTail(fields: seq<Member>, key: PyStr)
    requires fields != []
    ensures LastValue(fields, key)
         == if LastValue(fields[1..], key).Some? then LastValue(fields[1..], key)
            else if fields[0].key == key then Some(fields[0].value) else None
  {
    var n := |fields| - 1;
    if n > 0 && fields[n].key != key {
      assert fields[1..][..n - 1] == fields[..n][1..];
      LastValueOfTail(fields[..n], key);
    }
  }

  /** The merge of dictionaries, for all fields, repeated names and the version's name included. */
  lemma {:induction false} MergeLooksUp(d: seq<Member>, fields: seq<Member>, key: PyStr)
    ensures ValueAt(AssignAll(d, fields), key)
         == if LastValue(fields, key).Some? then LastValue(fields, key) else ValueAt(d, key)
    decreases |fields|
  {
    if fields != [] {
      AssignLooksUp(d, fields[0], key);
      MergeLooksUp(Assign(d, fields[0]), fields[1..], key);
      LastValueOfTail(fields, key);
    }
  }

  /** What `build_claims_document` says under each name: the field's value, or the version. */
  lemma {:induction false} BuiltDocumentSays(kind: string, fields: seq<Member>, key: PyStr)
    ensures kind != "execution" && kind != "output" ==> BuildClaimsDocument(kind, fields).Failure?
    ensures kind == "execution" || kind == "output" ==>
        && BuildClaimsDocument(kind, fields).Success?
        && ValueAt(BuildClaimsDocument(kind, fields).value, key)
           == if LastValue(fields, key).Some? then LastValue(fields, key)
              else if key == Lit("schema_version") then Some(Str(Lit("1.0"))) else None
  {
    MergeLooksUp([SchemaVersion()], fields, key);
    assert [SchemaVersion()][1..] == [];
  }

  /** The envelope: version 1, the digest of the bytes sent, the time, and the execution if one is named. */
  lemma EnvelopeIs(h: Hash, doc: seq<Member>, executionId: Option<PyStr>, timestamp: PyStr)
    ensures var (envelope, raw) := FinalizeClaims(h, doc, executionId, timestamp);
            && envelope.v == 1 && envelope.timestamp == timestamp && envelope.executionId == executionId
            && Base64.Decode(raw).Some?
            && envelope.claimsDigest == Lit("sha256:") + h(Base64.Decode(raw).value)
  {
    Base64.DecodeUndoesEncode(ClaimsBytes(doc));
  }

  /** No other envelope is accepted with the claims of this one: not another version, not another digest. */
  lemma {:induction false} OtherEnvelopesRejected(
      h: Hash, decode: Decoder, doc: seq<Member>, executionId: Option<PyStr>, timestamp: PyStr, e: Envelope)
    requires decode(Base64.Encode(ClaimsBytes(doc))) == Some(ClaimsBytes(doc))
    requires Verify(h, decode, e, Some(Base64.Encode(ClaimsBytes(doc)))).Some?
    ensures e.v == 1 && e.claimsDigest == FinalizeClaims(h, doc, executionId, timestamp).0.claimsDigest
  {
  }

  /** A version is known exactly if its part before the first dot is "1". */
  lemma {:induction false} MajorVersionIs(s: PyStr)
    ensures MajorVersionKnown(Some(Str(s)))
            <==> s == Lit("1") || exists rest: PyStr :: s == Lit("1.") + rest
    ensures !MajorVersionKnown(None) && forall v: Json :: !v.Str? ==> !MajorVersionKnown(Some(v))
  {
    if |s| >= 2 && s[..2] == Lit("1.") {
      assert s == Lit("1.") + s[2..];
    }
  }

  lemma {:induction false} AssignNewKey(d: seq<Member>, m: Member)
    requires forall x :: x in d ==> x.key != m.key
    ensures Assign(d, m) == d + [m]
  {
    if d != [] {
      assert d[0] in d;
      AssignNewKey(d[1..], m);
      assert d + [m] == [d[0]] + (d[1..] + [m]);
    }
  }

  lemma {:induction false} AssignAllNewKeys(d: seq<Member>, fields: seq<Member>)
    requires DistinctKeys(d + fields)
    ensures AssignAll(d, fields) == d + fields
    decreases |fields|
  {
    if fields == [] {
      assert d + fields == d;
    } else {
      forall x | x in d
        ensures x.key != fields[0].key
      {
        var i :| 0 <= i < |d| && d[i] == x;
        assert (d + fields)[i] == x && (d + fields)[|d|] == fields[0];
      }
      AssignNewKey(d, fields[0]);
      assert d + fields == d + [fields[0]] + fields[1..];
      AssignAllNewKeys(d + [fields[0]], fields[1..]);
    }
  }

  /** With new, distinct keys the document is the schema version followed by the fields. */
  lemma DocumentIsVersionThenFields(kind: string, fields: seq<Member>)
    requires DistinctKeys([SchemaVersion()] + fields)
    ensures BuildClaimsDocument(kind, fields)
            == if kind == "execution" || kind == "output" then Success([SchemaVersion()] + fields)
               else Failure("Unknown claims kind")
  {
    AssignAllNewKeys([SchemaVersion()], fields);
  }
}
