/**
 * The claims document of an output attestation: the output digest, the security posture
 * of the container, and the GPU block. Equal documents mean equal claims.
 */
module OutputClaims {
  import opened Prelude
  import opened PyText
  import opened Json
  import opened JsonRoundTrip
  import opened Canonical
  import opened Claims

  /** The resolved container-security configuration; `None` is a setting the caller did not supply. */
  datatype Posture = Posture(
    user: Option<PyStr>, allowRoot: Option<bool>, capAdd: Option<seq<PyStr>>, noNewPrivileges: Option<bool>,
    readOnlyRootfs: Option<bool>, tmpfsSize: Option<PyStr>, tmpfsExec: Option<bool>,
    mountMode: Option<PyStr>, networkMode: Option<PyStr>)

  /** A claim that is written only when it has a value. */
  datatype Claim = Claim(name: string, value: Option<Json>)

  function TextClaim(name: string, v: Option<PyStr>): Claim {
    Claim(name, if v.None? then None else Some(Str(v.value)))
  }

  function FlagClaim(name: string, v: Option<bool>): Claim {
    Claim(name, if v.None? then None else Some(Bool(v.value)))
  }

  function Texts(v: seq<PyStr>): Json {
    Arr(seq(|v|, i requires 0 <= i < |v| => Str(v[i])))
  }

  function ListClaim(name: string, v: Option<seq<PyStr>>): Claim {
    Claim(name, if v.None? then None else Some(Texts(v.value)))
  }

  function Written(c: Claim): seq<Member> {
    if c.value.None? then [] else [Member(Lit(c.name), c.value.value)]
  }

  function Present(claims: seq<Claim>): seq<Member> {
    if claims == [] then [] else Written(claims[0]) + Present(claims[1..])
  }

  function SecurityClaims(p: Posture): seq<Claim> {
    [ TextClaim("container_user", p.user),
      FlagClaim("container_allow_root", p.allowRoot),
      ListClaim("container_cap_add", p.capAdd),
      FlagClaim("no_new_privileges", p.noNewPrivileges),
      FlagClaim("container_read_only_rootfs", p.readOnlyRootfs),
      TextClaim("container_tmpfs_size", p.tmpfsSize),
      FlagClaim("container_tmpfs_exec", p.tmpfsExec),
      TextClaim("workspace_mount_mode", p.mountMode),
      TextClaim("container_network_mode", p.networkMode) ]
  }

  /** All claims of an output document, in the order of writing. */
  function OutputClaims(digest: PyStr, p: Posture, gpu: Option<Json>): seq<Claim> {
    [TextClaim("output_digest", Some(digest))] + SecurityClaims(p) + [Claim("gpu", gpu)]
  }

  const NAMES := [
    "output_digest", "container_user", "container_allow_root", "container_cap_add", "no_new_privileges",
    "container_read_only_rootfs", "container_tmpfs_size", "container_tmpfs_exec", "workspace_mount_mode",
    "container_network_mode", "gpu"]

  lemma NamesDistinct()
    ensures forall i, j :: 0 <= i < j < |NAMES| ==> NAMES[i] != NAMES[j]
    ensures forall i :: 0 <= i < |NAMES| ==> NAMES[i] != "schema_version"
  {
  }

  lemma {:induction false} PresentAppend(a: seq<Claim>, b: seq<Claim>)
    ensures Present(a + b) == Present(a) + Present(b)
  {
    if a == [] {
      assert a + b == b;
    } else {
      assert (a + b)[1..] == a[1..] + b;
      PresentAppend(a[1..], b);
      Assoc(Written(a[0]), Present(a[1..]), Present(b));
    }
  }

  /** `if value is not None: fields[name] = value` */
  function Supplied(fields: seq<Member>, c: Claim): seq<Member> {
    if c.value.Some? then fields + [Member(Lit(c.name), c.value.value)] else fields
  }

  lemma SuppliedNext(claims: seq<Claim>, k: nat)
    requires k < |claims|
    ensures Supplied(Present(claims[..k]), claims[k]) == Present(claims[..k + 1])
  {
    assert claims[..k + 1] == claims[..k] + [claims[k]];
    PresentAppend(claims[..k], [claims[k]]);
    assert [claims[k]][1..] == [];
  }

  lemma ThreeSupplied(c: seq<Claim>, k: nat, fields: seq<Member>)
    requires k + 3 <= |c| && fields == Present(c[..k])
    ensures Supplied(Supplied(Supplied(fields, c[k]), c[k + 1]), c[k + 2]) == Present(c[..k + 3])
  {
    hide Present, Supplied;
    SuppliedNext(c, k);
    SuppliedNext(c, k + 1);
    SuppliedNext(c, k + 2);
  }

  lemma {:induction false} NineSupplied(c: seq<Claim>)
    requires |c| == 9
    ensures var f3 := Supplied(Supplied(Supplied([], c[0]), c[1]), c[2]);
            var f6 := Supplied(Supplied(Supplied(f3, c[3]), c[4]), c[5]);
            Supplied(Supplied(Supplied(f6, c[6]), c[7]), c[8]) == Present(c)
  {
    assert Present(c[..0]) == [];
    hide Present, Supplied;
    var f3 := Supplied(Supplied(Supplied([], c[0]), c[1]), c[2]);
    ThreeSupplied(c, 0, []);
    var f6 := Supplied(Supplied(Supplied(f3, c[3]), c[4]), c[5]);
    ThreeSupplied(c, 3, f3);
    ThreeSupplied(c, 6, f6);
    assert c[..9] == c;
  }

  // Reading the claims back.

  ghost predicate SameNames(a: seq<Claim>, b: seq<Claim>) {
    |a| == |b| && forall i :: 0 <= i < |a| ==> a[i].name == b[i].name
  }

  ghost predicate DistinctClaims(a: seq<Claim>) {
    forall i, j :: 0 <= i < j < |a| ==> a[i].name != a[j].name
  }

  lemma LitInjective(a: string, b: string)
    requires Lit(a) == Lit(b)
    ensures a == b
  {
    forall i | 0 <= i < |a|
      ensures a[i] == b[i]
    {
      assert Lit(a)[i] == a[i] as int && Lit(b)[i] == b[i] as int;
    }
  }

  lemma {:induction false} PresentKeys(a: seq<Claim>, m: Member)
    requires m in Present(a)
    ensures exists i :: 0 <= i < |a| && m.key == Lit(a[i].name)
  {
    if m in Written(a[0]) {
      assert m.key == Lit(a[0].name);
    } else {
      PresentKeys(a[1..], m);
      var i :| 0 <= i < |a[1..]| && m.key == Lit(a[1..][i].name);
      assert a[i + 1] == a[1..][i];
    }
  }

  lemma HeadNotInTail(a: seq<Claim>, m: Member)
    requires a != [] && DistinctClaims(a) && m in Present(a[1..])
    ensures m.key != Lit(a[0].name)
  {
    PresentKeys(a[1..], m);
    var i :| 0 <= i < |a[1..]| && m.key == Lit(a[1..][i].name);
    assert a[1..][i] == a[i + 1];
    if m.key == Lit(a[0].name) {
      LitInjective(a[0].name, a[i + 1].name);
    }
  }

  // What the fields say, by name.

  lemma {:induction false} NoSuchKey(ms: seq<Member>, key: PyStr)
    requires forall m :: m in ms ==> m.key != key
    ensures ValueAt(ms, key) == None
  {
    if ms != [] {
      assert ms[0] in ms;
      NoSuchKey(ms[1..], key);
    }
  }

  /** Under its name each claim is found with its value, and a claim without value is not found. */
  lemma {:induction false} ClaimAt(claims: seq<Claim>, k: nat)
    requires DistinctClaims(claims) && k < |claims|
    ensures ValueAt(Present(claims), Lit(claims[k].name)) == claims[k].value
    decreases |claims|
  {
    var key, tail := Lit(claims[k].name), Present(claims[1..]);
    if k == 0 {
      forall m | m in tail
        ensures m.key != key
      {
        HeadNotInTail(claims, m);
      }
      NoSuchKey(tail, key);
    } else {
      ClaimAt(claims[1..], k - 1);
      if key == Lit(claims[0].name) {
        LitInjective(claims[0].name, claims[k].name);
      }
    }
    if claims[0].value.Some? {
      assert Present(claims)[0].key == Lit(claims[0].name) && Present(claims)[1..] == tail;
    } else {
      assert Present(claims) == tail;
    }
  }

  /** Each setting stands under its own name, and under no name if it was not supplied. */
  ghost predicate ShowsPosture(fields: seq<Member>, p: Posture) {
    && ValueAt(fields, Lit("container_user")) == (if p.user.None? then None else Some(Str(p.user.value)))
    && ValueAt(fields, Lit("container_allow_root"))
       == (if p.allowRoot.None? then None else Some(Bool(p.allowRoot.value)))
    && (if p.capAdd.None? then ValueAt(fields, Lit("container_cap_add")) == None
        else
          && ValueAt(fields, Lit("container_cap_add")).Some? && ValueAt(fields, Lit("container_cap_add")).value.Arr?
          && var items := ValueAt(fields, Lit("container_cap_add")).value.items;
             |items| == |p.capAdd.value| && forall i :: 0 <= i < |items| ==> items[i] == Str(p.capAdd.value[i]))
    && ValueAt(fields, Lit("no_new_privileges"))
       == (if p.noNewPrivileges.None? then None else Some(Bool(p.noNewPrivileges.value)))
    && ValueAt(fields, Lit("container_read_only_rootfs"))
       == (if p.readOnlyRootfs.None? then None else Some(Bool(p.readOnlyRootfs.value)))
    && ValueAt(fields, Lit("container_tmpfs_size"))
       == (if p.tmpfsSize.None? then None else Some(Str(p.tmpfsSize.value)))
    && ValueAt(fields, Lit("container_tmpfs_exec"))
       == (if p.tmpfsExec.None? then None else Some(Bool(p.tmpfsExec.value)))
    && ValueAt(fields, Lit("workspace_mount_mode"))
       == (if p.mountMode.None? then None else Some(Str(p.mountMode.value)))
    && ValueAt(fields, Lit("container_network_mode"))
       == (if p.networkMode.None? then None else Some(Str(p.networkMode.value)))
  }

  lemma SecurityNames(p: Posture)
    ensures var c := SecurityClaims(p);
            && |c| == 9 && c[0].name == "container_user" && c[1].name == "container_allow_root"
            && c[2].name == "container_cap_add" && c[3].name == "no_new_privileges"
            && c[4].name == "container_read_only_rootfs" && c[5].name == "container_tmpfs_size"
            && c[6].name == "container_tmpfs_exec" && c[7].name == "workspace_mount_mode"
            && c[8].name == "container_network_mode"
  {
  }

  lemma SecurityDistinct(p: Posture)
    ensures DistinctClaims(SecurityClaims(p))
  {
    SecurityNames(p);
    NamesDistinct();
    assert forall i :: 0 <= i < 9 ==> SecurityClaims(p)[i].name == NAMES[i + 1];
  }

  /** Wherever the nine claims stand in a list of claims, what is written shows the posture. */
  lemma {:induction false} PostureShown(claims: seq<Claim>, d: nat, fields: seq<Member>, p: Posture)
    requires DistinctClaims(claims) && d + 9 <= |claims| && claims[d..d + 9] == SecurityClaims(p)
    requires forall k :: d <= k < d + 9 ==> ValueAt(fields, Lit(claims[k].name)) == claims[k].value
    ensures ShowsPosture(fields, p)
  {
    SecurityNames(p);
    var c := SecurityClaims(p);
    assert forall k :: 0 <= k < 9 ==> claims[d + k] == c[k];
    assert c[0] == claims[d] && c[1] == claims[d + 1] && c[2] == claims[d + 2] && c[3] == claims[d + 3];
    assert c[4] == claims[d + 4] && c[5] == claims[d + 5] && c[6] == claims[d + 6];
    assert c[7] == claims[d + 7] && c[8] == claims[d + 8];
    hide ValueAt, Lit;
  }

  lemma {:induction false} SecurityShown(p: Posture)
    ensures ShowsPosture(Present(SecurityClaims(p)), p)
  {
    var c := SecurityClaims(p);
    SecurityDistinct(p);
    SecurityNames(p);
    forall k | 0 <= k < 9
      ensures ValueAt(Present(c), Lit(c[k].name)) == c[k].value
    {
      ClaimAt(c, k);
    }
    assert c[0..9] == c;
    hide SecurityClaims, ValueAt, Present, ShowsPosture;
    PostureShown(c, 0, Present(c), p);
  }

  /** `_build_security_user_data`: each setting is written only when it was supplied. */
  method BuildSecurityUserData(p: Posture) returns (fields: seq<Member>)
    ensures fields == Present(SecurityClaims(p))
    ensures ShowsPosture(fields, p)
  {
    fields := [];
    fields := Supplied(fields, TextClaim("container_user", p.user));
    fields := Supplied(fields, FlagClaim("container_allow_root", p.allowRoot));
    fields := Supplied(fields, ListClaim("container_cap_add", p.capAdd));
    fields := Supplied(fields, FlagClaim("no_new_privileges", p.noNewPrivileges));
    fields := Supplied(fields, FlagClaim("container_read_only_rootfs", p.readOnlyRootfs));
    fields := Supplied(fields, TextClaim("container_tmpfs_size", p.tmpfsSize));
    fields := Supplied(fields, FlagClaim("container_tmpfs_exec", p.tmpfsExec));
    fields := Supplied(fields, TextClaim("workspace_mount_mode", p.mountMode));
    fields := Supplied(fields, TextClaim("container_network_mode", p.networkMode));
    NineSupplied(SecurityClaims(p));
    SecurityShown(p);
  }

  /** What is written determines every claim, including which ones were not supplied. */
  lemma {:induction false} PresentInjective(a: seq<Claim>, b: seq<Claim>)
    requires SameNames(a, b) && DistinctClaims(a)
    requires Present(a) == Present(b)
    ensures a == b
  {
    if a != [] {
      assert DistinctClaims(b);
      if a[0].value.None? != b[0].value.None? {
        var (x, y) := if a[0].value.None? then (a, b) else (b, a);
        assert Present(x)[0] == Written(y[0])[0];
        assert Present(x)[0] in Present(x[1..]);
        HeadNotInTail(x, Present(x)[0]);
        assert false;
      }
      assert Present(a)[|Written(a[0])|..] == Present(a[1..]);
      assert Present(b)[|Written(b[0])|..] == Present(b[1..]);
      if a[0].value.Some? {
        assert Present(a)[0].value == a[0].value.value && Present(b)[0].value == b[0].value.value;
      }
      PresentInjective(a[1..], b[1..]);
      assert a == [a[0]] + a[1..] && b == [b[0]] + b[1..];
    }
  }

  lemma OutputClaimNames(digest: PyStr, p: Posture, gpu: Option<Json>)
    ensures var c := OutputClaims(digest, p, gpu);
            |c| == |NAMES| && forall i :: 0 <= i < |NAMES| ==> c[i].name == NAMES[i]
  {
  }

  lemma TextsInjective(a: seq<PyStr>, b: seq<PyStr>)
    requires Texts(a) == Texts(b)
    ensures a == b
  {
    forall i | 0 <= i < |a|
      ensures a[i] == b[i]
    {
      assert Texts(a).items[i] == Str(a[i]) && Texts(b).items[i] == Str(b[i]);
    }
  }

  lemma SecurityClaimsInjective(p: Posture, q: Posture)
    requires SecurityClaims(p) == SecurityClaims(q)
    ensures p == q
  {
    var a, b := SecurityClaims(p), SecurityClaims(q);
    assert a[0] == b[0] && a[1] == b[1] && a[2] == b[2] && a[3] == b[3] && a[4] == b[4];
    assert a[5] == b[5] && a[6] == b[6] && a[7] == b[7] && a[8] == b[8];
    if p.capAdd.Some? && q.capAdd.Some? {
      TextsInjective(p.capAdd.value, q.capAdd.value);
    }
  }

  // The whole document.

  function OutputBytes(o: Output): seq<Byte> {
    EncodeIsAscii(Obj(SortKeys(OutputMembers(o))), Compact);
    Bytes(OutputText(o))
  }

  /** The claims document `generate_output_attestation` builds. */
  function OutputDocument(h: Hash, o: Output, p: Posture, gpu: Option<Json>): seq<Member> {
    [SchemaVersion()] + Present(OutputClaims(Digest(h, OutputBytes(o)), p, gpu))
  }

  lemma ClaimsDistinct(digest: PyStr, p: Posture, gpu: Option<Json>)
    ensures DistinctClaims(OutputClaims(digest, p, gpu))
    ensures forall c :: c in OutputClaims(digest, p, gpu) ==> c.name != "schema_version"
  {
    OutputClaimNames(digest, p, gpu);
    NamesDistinct();
  }

  lemma {:induction false} PresentDistinctKeys(a: seq<Claim>)
    requires DistinctClaims(a)
    ensures DistinctKeys(Present(a))
  {
    if a != [] {
      PresentDistinctKeys(a[1..]);
      var tail := Present(a[1..]);
      forall i | 0 <= i < |tail|
        ensures tail[i].key != Lit(a[0].name)
      {
        HeadNotInTail(a, tail[i]);
      }
    }
  }

  /** The builder's dictionary merge writes the schema version first and loses no claim. */
  lemma BuilderWritesOutputDocument(h: Hash, o: Output, p: Posture, gpu: Option<Json>)
    ensures BuildClaimsDocument("output", Present(OutputClaims(Digest(h, OutputBytes(o)), p, gpu)))
            == Success(OutputDocument(h, o, p, gpu))
  {
    hide Digest, OutputBytes, Present, SecurityClaims, DistinctClaims, DistinctKeys, OutputClaims, BuildClaimsDocument;
    var claims := OutputClaims(Digest(h, OutputBytes(o)), p, gpu);
    ClaimsDistinct(Digest(h, OutputBytes(o)), p, gpu);
    PresentDistinctKeys(claims);
    forall i | 0 <= i < |Present(claims)|
      ensures Present(claims)[i].key != SchemaVersion().key
    {
      PresentKeys(claims, Present(claims)[i]);
      var j :| 0 <= j < |claims| && Present(claims)[i].key == Lit(claims[j].name);
      if Lit(claims[j].name) == Lit("schema_version") {
        LitInjective(claims[j].name, "schema_version");
        assert claims[j] in claims;
      }
    }
    DocumentIsVersionThenFields("output", Present(claims));
  }

  /** Every output document that is built is accepted and read back, and no other bytes are. */
  lemma OutputDocumentIsBound(
      h: Hash, decode: Decoder, o: Output, p: Posture, gpu: Option<Json>, executionId: Option<PyStr>, timestamp: PyStr,
      raw: Option<string>)
    requires NoCollision(h, decode, raw, ClaimsBytes(OutputDocument(h, o, p, gpu)))
    ensures var doc := OutputDocument(h, o, p, gpu);
            Verify(h, decode, FinalizeClaims(h, doc, executionId, timestamp).0, raw)
            == if Recovers(decode, raw, ClaimsBytes(doc)) then Some(NormalMembers(doc)) else None
  {
    var doc := OutputDocument(h, o, p, gpu);
    assert doc[0] == SchemaVersion();
    VersionFirstIsKnown(doc);
    VerifierAcceptsExactlyWhatWasBuilt(h, decode, doc, executionId, timestamp, raw);
  }

  /** What the whole document says under each of its names, and that there are no others. */
  ghost predicate ShowsOutput(doc: seq<Member>, h: Hash, o: Output, p: Posture, gpu: Option<Json>) {
    && ValueAt(doc, Lit("schema_version")) == Some(Str(Lit("1.0")))
    && ValueAt(doc, Lit("output_digest")) == Some(Str(Lit("sha256:") + h(OutputBytes(o))))
    && ShowsPosture(doc, p)
    && ValueAt(doc, Lit("gpu")) == gpu
    && (forall m :: m in doc ==> m.key == Lit("schema_version") || exists i :: 0 <= i < 11 && m.key == Lit(NAMES[i]))
  }

  lemma {:induction false} ClaimInDocument(claims: seq<Claim>, doc: seq<Member>, k: nat)
    requires DistinctClaims(claims) && k < |claims| && claims[k].name != "schema_version"
    requires doc == [SchemaVersion()] + Present(claims)
    ensures ValueAt(doc, Lit(claims[k].name)) == claims[k].value
  {
    ClaimAt(claims, k);
    if Lit(claims[k].name) == Lit("schema_version") {
      LitInjective(claims[k].name, "schema_version");
    }
    assert doc[1..] == Present(claims);
  }

  /** The output document shows the digest, every setting and the GPU block, each under its own name. */
  lemma {:induction false} OutputDocumentShows(h: Hash, o: Output, p: Posture, gpu: Option<Json>)
    ensures ShowsOutput(OutputDocument(h, o, p, gpu), h, o, p, gpu)
  {
    var d := Digest(h, OutputBytes(o));
    var claims, doc := OutputClaims(d, p, gpu), OutputDocument(h, o, p, gpu);
    ClaimsDistinct(d, p, gpu);
    OutputClaimNames(d, p, gpu);
    SecurityNames(p);
    forall k | 0 <= k < |claims|
      ensures ValueAt(doc, Lit(claims[k].name)) == claims[k].value
    {
      assert claims[k] in claims;
      ClaimInDocument(claims, doc, k);
    }
    assert claims[1..1 + 9] == SecurityClaims(p);
    assert claims[0].value == Some(Str(d)) && claims[10] == Claim("gpu", gpu);
    hide Present, SecurityClaims, ShowsPosture, OutputBytes;
    PostureShown(claims, 1, doc, p);
    OutputDocumentNames(h, o, p, gpu);
  }

  lemma {:induction false} OutputDocumentNames(h: Hash, o: Output, p: Posture, gpu: Option<Json>)
    ensures forall m :: m in OutputDocument(h, o, p, gpu) ==>
        m.key == Lit("schema_version") || exists i :: 0 <= i < 11 && m.key == Lit(NAMES[i])
  {
    var d := Digest(h, OutputBytes(o));
    var claims := OutputClaims(d, p, gpu);
    OutputClaimNames(d, p, gpu);
    hide Present, SecurityClaims, OutputBytes, Lit, Digest;
    forall m | m in OutputDocument(h, o, p, gpu)
      ensures m.key == Lit("schema_version") || exists i :: 0 <= i < 11 && m.key == Lit(NAMES[i])
    {
      if m != SchemaVersion() {
        PresentKeys(claims, m);
      }
    }
  }

  /** Equal output documents attest the same digest, posture and GPU block. */
  lemma EqualDocumentsEqualClaims(
      h: Hash, o: Output, p: Posture, gpu: Option<Json>, o': Output, p': Posture, gpu': Option<Json>)
    requires OutputDocument(h, o, p, gpu) == OutputDocument(h, o', p', gpu')
    ensures h(OutputBytes(o)) == h(OutputBytes(o')) && p == p' && gpu == gpu'
  {
    hide Digest, OutputBytes, Present, SecurityClaims, DistinctClaims;
    var d, d' := Digest(h, OutputBytes(o)), Digest(h, OutputBytes(o'));
    var a, b := OutputClaims(d, p, gpu), OutputClaims(d', p', gpu');
    assert OutputDocument(h, o, p, gpu)[1..] == Present(a) && OutputDocument(h, o', p', gpu')[1..] == Present(b);
    OutputClaimNames(d, p, gpu);
    OutputClaimNames(d', p', gpu');
    ClaimsDistinct(d, p, gpu);
    PresentInjective(a, b);
    assert a[0] == b[0] && a[10] == b[10];
    assert a[1..10] == SecurityClaims(p) && b[1..10] == SecurityClaims(p');
    SecurityClaimsInjective(p, p');
    DigestsDiffer(h, OutputBytes(o), OutputBytes(o'));
  }

  // What the verifier reads: the same claims with split surrogate pairs joined.

  function NormalClaim(c: Claim): Claim {
    Claim(c.name, if c.value.None? then None else Some(NormalJson(c.value.value)))
  }

  function NormalText(v: Option<PyStr>): Option<PyStr> {
    if v.None? then None else Some(Normal(v.value))
  }

  function NormalTexts(v: seq<PyStr>): seq<PyStr> {
    seq(|v|, i requires 0 <= i < |v| => Normal(v[i]))
  }

  function NormalPosture(p: Posture): Posture {
    p.(user := NormalText(p.user),
       capAdd := if p.capAdd.None? then None else Some(NormalTexts(p.capAdd.value)),
       tmpfsSize := NormalText(p.tmpfsSize), mountMode := NormalText(p.mountMode),
       networkMode := NormalText(p.networkMode))
  }

  function NormalGpu(gpu: Option<Json>): Option<Json> {
    if gpu.None? then None else Some(NormalJson(gpu.value))
  }

  lemma {:induction false} NormalItemsAt(items: seq<Json>)
    ensures |NormalItems(items)| == |items|
    ensures forall i :: 0 <= i < |items| ==> NormalItems(items)[i] == NormalJson(items[i])
  {
    if items != [] {
      NormalItemsAt(items[1..]);
    }
  }

  lemma NormalTextsItems(v: seq<PyStr>)
    ensures NormalJson(Texts(v)) == Texts(NormalTexts(v))
  {
    NormalItemsAt(Texts(v).items);
    assert NormalItems(Texts(v).items) == Texts(NormalTexts(v)).items;
  }

  lemma NormalTextClaim(name: string, v: Option<PyStr>)
    ensures NormalClaim(TextClaim(name, v)) == TextClaim(name, NormalText(v))
  {
  }

  lemma NormalFlagClaim(name: string, v: Option<bool>)
    ensures NormalClaim(FlagClaim(name, v)) == FlagClaim(name, v)
  {
  }

  lemma NormalListClaim(name: string, v: Option<seq<PyStr>>)
    ensures NormalClaim(ListClaim(name, v)) == ListClaim(name, if v.None? then None else Some(NormalTexts(v.value)))
  {
    if v.Some? {
      NormalTextsItems(v.value);
    }
  }

  lemma NormalSecurityClaims(p: Posture, i: nat)
    requires i < |SecurityClaims(p)|
    ensures |SecurityClaims(NormalPosture(p))| == |SecurityClaims(p)|
    ensures NormalClaim(SecurityClaims(p)[i]) == SecurityClaims(NormalPosture(p))[i]
  {
    hide TextClaim, FlagClaim, ListClaim, NormalClaim, NormalText, NormalTexts;
    NormalTextClaim("container_user", p.user);
    NormalFlagClaim("container_allow_root", p.allowRoot);
    NormalListClaim("container_cap_add", p.capAdd);
    NormalFlagClaim("no_new_privileges", p.noNewPrivileges);
    NormalFlagClaim("container_read_only_rootfs", p.readOnlyRootfs);
    NormalTextClaim("container_tmpfs_size", p.tmpfsSize);
    NormalFlagClaim("container_tmpfs_exec", p.tmpfsExec);
    NormalTextClaim("workspace_mount_mode", p.mountMode);
    NormalTextClaim("container_network_mode", p.networkMode);
  }

  lemma NormalOutputClaims(digest: PyStr, p: Posture, gpu: Option<Json>, i: nat)
    requires NoSplitPair(digest) && i < |OutputClaims(digest, p, gpu)|
    ensures var c := OutputClaims(digest, NormalPosture(p), NormalGpu(gpu));
            i < |c| && NormalClaim(OutputClaims(digest, p, gpu)[i]) == c[i]
  {
    hide SecurityClaims, NormalPosture, Normal;
    NormalIffNoSplitPair(digest);
    SecurityClaimCount(p);
    SecurityClaimCount(NormalPosture(p));
    if 1 <= i < 10 {
      NormalSecurityClaims(p, i - 1);
    }
  }

  lemma SecurityClaimCount(p: Posture)
    ensures |SecurityClaims(p)| == 9
  {
  }

  lemma {:induction false} NormalPresent(a: seq<Claim>, b: seq<Claim>)
    requires |a| == |b| && forall i :: 0 <= i < |a| ==> b[i] == NormalClaim(a[i])
    requires forall i :: 0 <= i < |a| ==> AsciiText(a[i].name)
    ensures NormalMembers(Present(a)) == Present(b)
  {
    if a != [] {
      LitIsNormal(a[0].name);
      NormalPresent(a[1..], b[1..]);
      hide Normal, NormalJson, Lit;
      if a[0].value.Some? {
        assert Present(a)[1..] == Present(a[1..]);
      } else {
        assert Present(a) == Present(a[1..]) && Present(b) == Present(b[1..]);
      }
    }
  }

  lemma FirstNamesAreAscii()
    ensures forall i :: 0 <= i < 5 ==> AsciiText(NAMES[i])
  {
  }

  lemma LastNamesAreAscii()
    ensures forall i :: 5 <= i < |NAMES| ==> AsciiText(NAMES[i])
  {
  }

  lemma {:induction false} DigestIsNormal(h: Hash, b: seq<Byte>)
    requires NoSplitPair(h(b))
    ensures NoSplitPair(Digest(h, b))
  {
    var n := |Lit("sha256:")|;
    forall i | 0 <= i < |Digest(h, b)| - 1
      ensures !(IsHigh(Digest(h, b)[i]) && IsLow(Digest(h, b)[i + 1]))
    {
      if i < n {
        assert Digest(h, b)[i] == "sha256:"[i] as int;
      } else {
        assert Digest(h, b)[i] == h(b)[i - n] && Digest(h, b)[i + 1] == h(b)[i + 1 - n];
      }
    }
  }

  lemma {:induction false} NormalOutputDocument(h: Hash, o: Output, p: Posture, gpu: Option<Json>)
    requires NoSplitPair(h(OutputBytes(o)))
    ensures NormalMembers(OutputDocument(h, o, p, gpu)) == OutputDocument(h, o, NormalPosture(p), NormalGpu(gpu))
  {
    var d := Digest(h, OutputBytes(o));
    var a, b := OutputClaims(d, p, gpu), OutputClaims(d, NormalPosture(p), NormalGpu(gpu));
    DigestIsNormal(h, OutputBytes(o));
    OutputClaimNames(d, p, gpu);
    OutputClaimNames(d, NormalPosture(p), NormalGpu(gpu));
    FirstNamesAreAscii();
    LastNamesAreAscii();
    hide OutputClaims, Digest, OutputBytes, NormalPosture, NormalGpu, NormalClaim, Present, SchemaVersion, AsciiText;
    forall i | 0 <= i < |a|
      ensures b[i] == NormalClaim(a[i])
    {
      NormalOutputClaims(d, p, gpu, i);
    }
    NormalPresent(a, b);
    VersionIsNormal();
    assert ([SchemaVersion()] + Present(a))[1..] == Present(a);
  }

  /**
   * End to end: if the verifier accepts some `claims_raw` against the envelope signed for an
   * output, and reads there the document of an output, then it is that output, attested with
   * the same posture and GPU block up to joining split pairs; provided the hash tells the
   * bytes involved apart and its text, hexadecimal digits, has no split pair.
   */
  lemma {:induction false} VerifiedOutputIsTheSignedOutput(
      h: Hash, decode: Decoder, o: Output, p: Posture, gpu: Option<Json>, executionId: Option<PyStr>, timestamp: PyStr,
      raw: Option<string>, o': Output, p': Posture, gpu': Option<Json>)
    requires ScalarOnly(o.stdout) && ScalarOnly(o.stderr) && ScalarOnly(o'.stdout) && ScalarOnly(o'.stderr)
    requires NoSplitPair(h(OutputBytes(o)))
    requires h(OutputBytes(o)) == h(OutputBytes(o')) ==> OutputBytes(o) == OutputBytes(o')
    requires NoCollision(h, decode, raw, ClaimsBytes(OutputDocument(h, o, p, gpu)))
    requires Verify(h, decode, FinalizeClaims(h, OutputDocument(h, o, p, gpu), executionId, timestamp).0, raw)
             == Some(OutputDocument(h, o', p', gpu'))
    ensures o' == o && p' == NormalPosture(p) && gpu' == NormalGpu(gpu)
  {
    OutputDocumentIsBound(h, decode, o, p, gpu, executionId, timestamp, raw);
    NormalOutputDocument(h, o, p, gpu);
    EqualDocumentsEqualClaims(h, o, NormalPosture(p), NormalGpu(gpu), o', p', gpu');
    EqualBytesEqualOutputs(o, o');
  }

  /** Whatever the verifier reads for an output shows its digest, its settings and its GPU block. */
  lemma {:induction false} ReadClaimsShowTheOutput(
      h: Hash, decode: Decoder, o: Output, p: Posture, gpu: Option<Json>, executionId: Option<PyStr>, timestamp: PyStr,
      raw: Option<string>)
    requires NoSplitPair(h(OutputBytes(o)))
    requires NoCollision(h, decode, raw, ClaimsBytes(OutputDocument(h, o, p, gpu)))
    ensures var envelope := FinalizeClaims(h, OutputDocument(h, o, p, gpu), executionId, timestamp).0;
            var read := Verify(h, decode, envelope, raw);
            read.Some? ==> ShowsOutput(read.value, h, o, NormalPosture(p), NormalGpu(gpu))
  {
    OutputDocumentIsBound(h, decode, o, p, gpu, executionId, timestamp, raw);
    NormalOutputDocument(h, o, p, gpu);
    OutputDocumentShows(h, o, NormalPosture(p), NormalGpu(gpu));
  }

  ghost predicate PlainText(v: Option<PyStr>) {
    v.Some? ==> NoSplitPair(v.value)
  }

  lemma NormalTextOfPlain(v: Option<PyStr>)
    requires PlainText(v)
    ensures NormalText(v) == v
  {
    if v.Some? {
      NormalIffNoSplitPair(v.value);
    }
  }

  /** Settings whose strings have no split pairs are read as they were written. */
  lemma NormalPostureOfPlain(p: Posture)
    requires PlainText(p.user) && PlainText(p.tmpfsSize) && PlainText(p.mountMode) && PlainText(p.networkMode)
    requires p.capAdd.Some? ==> forall i :: 0 <= i < |p.capAdd.value| ==> NoSplitPair(p.capAdd.value[i])
    ensures NormalPosture(p) == p
  {
    hide Normal, NormalText, NoSplitPair;
    NormalTextOfPlain(p.user);
    NormalTextOfPlain(p.tmpfsSize);
    NormalTextOfPlain(p.mountMode);
    NormalTextOfPlain(p.networkMode);
    if p.capAdd.Some? {
      forall i | 0 <= i < |p.capAdd.value|
        ensures Normal(p.capAdd.value[i]) == p.capAdd.value[i]
      {
        NormalIffNoSplitPair(p.capAdd.value[i]);
      }
      assert NormalTexts(p.capAdd.value) == p.capAdd.value;
    }
  }

  lemma EqualBytesEqualOutputs(o: Output, o': Output)
    requires ScalarOnly(o.stdout) && ScalarOnly(o.stderr) && ScalarOnly(o'.stdout) && ScalarOnly(o'.stderr)
    requires OutputBytes(o) == OutputBytes(o')
    ensures o == o'
  {
    EncodeIsAscii(Obj(SortKeys(OutputMembers(o))), Compact);
    EncodeIsAscii(Obj(SortKeys(OutputMembers(o'))), Compact);
    TextOfBytes(OutputText(o));
    TextOfBytes(OutputText(o'));
    OutputTextInjective(o, o');
  }
}
