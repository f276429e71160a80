/**
 * The canonical texts that are hashed: the environment of a script, and the output of an
 * execution. Both are `json.dumps(..., sort_keys=True, separators=(',', ':'))`.
 */
module Canonical {
  import opened Prelude
  import opened PyText
  import opened Json
  import opened JsonRoundTrip

  // Sorting by key, in the code-point order of Python strings.

  predicate Before(a: PyStr, b: PyStr) {
    b != [] && (a == [] || a[0] < b[0] || (a[0] == b[0] && Before(a[1..], b[1..])))
  }

  function Insert(m: Member, sorted: seq<Member>): seq<Member> {
    if sorted == [] || Before(m.key, sorted[0].key) then [m] + sorted
    else [sorted[0]] + Insert(m, sorted[1..])
  }

  function SortKeys(members: seq<Member>): seq<Member> {
    if members == [] then [] else Insert(members[0], SortKeys(members[1..]))
  }

  /** The members of a dictionary, in insertion order. */
  ghost predicate DistinctKeys(members: seq<Member>) {
    forall i, j :: 0 <= i < j < |members| ==> members[i].key != members[j].key
  }

  ghost predicate InKeyOrder(members: seq<Member>) {
    forall i, j :: 0 <= i < j < |members| ==> Before(members[i].key, members[j].key)
  }

  lemma {:induction false} BeforeTotal(a: PyStr, b: PyStr)
    ensures !Before(a, a)
    ensures a == b || Before(a, b) || Before(b, a)
    ensures !(Before(a, b) && Before(b, a))
  {
    if a != [] {
      BeforeTotal(a[1..], if b == [] then [] else b[1..]);
      assert a == [a[0]] + a[1..];
    }
    if b != [] {
      assert b == [b[0]] + b[1..];
    }
  }

  lemma {:induction false} BeforeTransitive(a: PyStr, b: PyStr, c: PyStr)
    requires Before(a, b) && Before(b, c)
    ensures Before(a, c)
  {
    if a != [] && a[0] == b[0] == c[0] {
      BeforeTransitive(a[1..], b[1..], c[1..]);
    }
  }

  lemma {:induction false} InsertKeeps(m: Member, sorted: seq<Member>)
    ensures forall x :: x in Insert(m, sorted) <==> x == m || x in sorted
  {
    if sorted == [] || Before(m.key, sorted[0].key) {
    } else {
      InsertKeeps(m, sorted[1..]);
      assert sorted == [sorted[0]] + sorted[1..];
    }
  }

  lemma ConsInKeyOrder(m: Member, tail: seq<Member>)
    requires InKeyOrder(tail)
    requires forall x :: x in tail ==> Before(m.key, x.key)
    ensures InKeyOrder([m] + tail)
  {
  }

  lemma {:induction false} InsertInOrder(m: Member, sorted: seq<Member>)
    requires InKeyOrder(sorted)
    requires forall x :: x in sorted ==> x.key != m.key
    ensures InKeyOrder(Insert(m, sorted))
  {
    if sorted == [] {
    } else if Before(m.key, sorted[0].key) {
      forall x | x in sorted
        ensures Before(m.key, x.key)
      {
        var i :| 0 <= i < |sorted| && sorted[i] == x;
        if i > 0 {
          BeforeTransitive(m.key, sorted[0].key, x.key);
        }
      }
      ConsInKeyOrder(m, sorted);
    } else {
      BeforeTotal(m.key, sorted[0].key);
      InsertInOrder(m, sorted[1..]);
      InsertKeeps(m, sorted[1..]);
      ConsInKeyOrder(sorted[0], Insert(m, sorted[1..]));
    }
  }

  lemma {:induction false} SortKeysSorts(members: seq<Member>)
    requires DistinctKeys(members)
    ensures forall x :: x in SortKeys(members) <==> x in members
    ensures InKeyOrder(SortKeys(members))
  {
    if members != [] {
      SortKeysSorts(members[1..]);
      InsertKeeps(members[0], SortKeys(members[1..]));
      InsertInOrder(members[0], SortKeys(members[1..]));
    }
  }

  lemma FirstIsLeast(a: seq<Member>, x: Member)
    requires InKeyOrder(a) && x in a
    ensures x == a[0] || Before(a[0].key, x.key)
  {
  }

  lemma NothingInNone(b: seq<Member>)
    ensures b == [] || b[0] in b
  {
  }

  /** A list in key order is determined by its elements. */
  lemma {:induction false} SortedUnique(a: seq<Member>, b: seq<Member>)
    requires InKeyOrder(a) && InKeyOrder(b)
    requires forall x :: x in a <==> x in b
    ensures a == b
  {
    if a == [] {
      NothingInNone(b);
    } else {
      assert a[0] in b;
      assert b[0] in a;
      FirstIsLeast(a, b[0]);
      FirstIsLeast(b, a[0]);
      BeforeTotal(a[0].key, b[0].key);
      TailElements(a);
      TailElements(b);
      SortedUnique(a[1..], b[1..]);
      assert a == [a[0]] + a[1..] && b == [b[0]] + b[1..];
    }
  }

  lemma TailElements(a: seq<Member>)
    requires InKeyOrder(a) && a != []
    ensures forall x :: x in a[1..] <==> x in a && x != a[0]
  {
    forall i | 1 <= i < |a|
      ensures a[i] != a[0]
    {
      BeforeTotal(a[0].key, a[i].key);
    }
  }

  // The environment of a script.

  datatype Variable = Variable(name: PyStr, value: PyStr)

  /** A dictionary of variables in insertion order. */
  type Env = seq<Variable>

  ghost predicate DistinctNames(env: Env) {
    forall i, j :: 0 <= i < j < |env| ==> env[i].name != env[j].name
  }

  function EnvMembers(env: Env): (ms: seq<Member>)
    ensures |ms| == |env|
    ensures forall i :: 0 <= i < |env| ==> ms[i] == Member(env[i].name, Str(env[i].value))
  {
    seq(|env|, i requires 0 <= i < |env| => Member(env[i].name, Str(env[i].value)))
  }

  /** The text `_compute_script_env_hash` hashes. */
  function ScriptEnvText(env: Option<Env>): string {
    if env.None? || env.value == [] then "{}"
    else Encode(Obj(SortKeys(EnvMembers(env.value))), Compact)
  }

  /** The same dictionary, whatever the insertion order. */
  ghost predicate SameMap(a: Env, b: Env) {
    forall v: Variable :: v in a <==> v in b
  }

  ghost predicate NoSplitPairs(env: Env) {
    forall v :: v in env ==> NoSplitPair(v.name) && NoSplitPair(v.value)
  }

  /** The special case for the empty environment writes what the general encoder writes. */
  lemma EmptyEnvAgrees(env: Env)
    ensures ScriptEnvText(Some(env)) == Encode(Obj(SortKeys(EnvMembers(env))), Compact)
    ensures ScriptEnvText(None) == ScriptEnvText(Some([]))
  {
  }

  lemma EnvMembersElements(env: Env)
    ensures forall v: Variable :: v in env <==> Member(v.name, Str(v.value)) in EnvMembers(env)
    ensures forall m :: m in EnvMembers(env) ==> m.value.Str? && Variable(m.key, m.value.s) in env
  {
  }

  /** The hashed text does not depend on the insertion order. */
  lemma EnvTextIgnoresInsertionOrder(a: Env, b: Env)
    requires DistinctNames(a) && DistinctNames(b) && SameMap(a, b)
    ensures SortKeys(EnvMembers(a)) == SortKeys(EnvMembers(b))
    ensures ScriptEnvText(Some(a)) == ScriptEnvText(Some(b))
  {
    EmptyEnvAgrees(a);
    EmptyEnvAgrees(b);
    SortKeysSorts(EnvMembers(a));
    SortKeysSorts(EnvMembers(b));
    EnvMembersElements(a);
    EnvMembersElements(b);
    forall m
      ensures m in EnvMembers(a) <==> m in EnvMembers(b)
    {
      if m in EnvMembers(a) || m in EnvMembers(b) {
        assert m == Member(m.key, Str(m.value.s));
        assert Variable(m.key, m.value.s) in a <==> Variable(m.key, m.value.s) in b;
      }
    }
    SortedUnique(SortKeys(EnvMembers(a)), SortKeys(EnvMembers(b)));
  }

  /** For all environments: equal texts exactly when the sorted members agree after joining split pairs. */
  lemma EnvTextExactly(a: Env, b: Env)
    ensures ScriptEnvText(Some(a)) == ScriptEnvText(Some(b))
            <==> NormalMembers(SortKeys(EnvMembers(a))) == NormalMembers(SortKeys(EnvMembers(b)))
  {
    EmptyEnvAgrees(a);
    EmptyEnvAgrees(b);
    SameTextIff(Obj(SortKeys(EnvMembers(a))), Obj(SortKeys(EnvMembers(b))), Compact);
  }

  lemma {:induction false} NormalMembersOfClean(ms: seq<Member>)
    requires forall m :: m in ms ==> NoSplitPair(m.key) && m.value.Str? && NoSplitPair(m.value.s)
    ensures NormalMembers(ms) == ms
  {
    if ms != [] {
      assert ms[0] in ms;
      NormalIffNoSplitPair(ms[0].key);
      NormalIffNoSplitPair(ms[0].value.s);
      assert NormalMember(ms[0]) == ms[0];
      NormalMembersOfClean(ms[1..]);
      assert ms == [ms[0]] + ms[1..];
    }
  }

  /** Without split pairs, the hashed text names the dictionary: equal texts exactly for equal maps. */
  lemma EnvTextNamesTheMap(a: Env, b: Env)
    requires DistinctNames(a) && DistinctNames(b)
    requires NoSplitPairs(a) && NoSplitPairs(b)
    ensures ScriptEnvText(Some(a)) == ScriptEnvText(Some(b)) <==> SameMap(a, b)
  {
    if SameMap(a, b) {
      EnvTextIgnoresInsertionOrder(a, b);
    }
    if ScriptEnvText(Some(a)) == ScriptEnvText(Some(b)) {
      EnvTextExactly(a, b);
      SortKeysSorts(EnvMembers(a));
      SortKeysSorts(EnvMembers(b));
      EnvMembersElements(a);
      EnvMembersElements(b);
      NormalMembersOfClean(SortKeys(EnvMembers(a)));
      NormalMembersOfClean(SortKeys(EnvMembers(b)));
    }
  }

  // Environments with split pairs in their values.

  /** Same keys, and values that read back the same. */
  ghost predicate Alike(a: seq<Member>, b: seq<Member>) {
    && |a| == |b|
    && forall i :: 0 <= i < |a| ==> a[i].key == b[i].key && NormalJson(a[i].value) == NormalJson(b[i].value)
  }

  lemma {:induction false} InsertAlike(m: Member, n: Member, a: seq<Member>, b: seq<Member>)
    requires Alike(a, b)
    requires m.key == n.key && NormalJson(m.value) == NormalJson(n.value)
    ensures Alike(Insert(m, a), Insert(n, b))
  {
    if a != [] && !Before(m.key, a[0].key) {
      InsertAlike(m, n, a[1..], b[1..]);
    }
  }

  lemma {:induction false} SortAlike(a: seq<Member>, b: seq<Member>)
    requires Alike(a, b)
    ensures Alike(SortKeys(a), SortKeys(b))
  {
    if a != [] {
      SortAlike(a[1..], b[1..]);
      InsertAlike(a[0], b[0], SortKeys(a[1..]), SortKeys(b[1..]));
    }
  }

  lemma {:induction false} AlikeReadBackSame(a: seq<Member>, b: seq<Member>)
    requires Alike(a, b)
    ensures NormalMembers(a) == NormalMembers(b)
  {
    if a != [] {
      AlikeReadBackSame(a[1..], b[1..]);
    }
  }

  /** Every environment with a split pair in a value has the text of a different environment. */
  lemma SplitPairInValueCollides(env: Env, i: nat)
    requires DistinctNames(env) && i < |env| && !NoSplitPair(env[i].value)
    ensures var other := env[i := Variable(env[i].name, Normal(env[i].value))];
            DistinctNames(other) && !SameMap(env, other) && ScriptEnvText(Some(env)) == ScriptEnvText(Some(other))
  {
    var v := env[i];
    var other := env[i := Variable(v.name, Normal(v.value))];
    NormalIffNoSplitPair(v.value);
    UnitsOfJoined(Units(v.value));
    SortAlike(EnvMembers(env), EnvMembers(other));
    AlikeReadBackSame(SortKeys(EnvMembers(env)), SortKeys(EnvMembers(other)));
    EnvTextExactly(env, other);
    assert v in env && v !in other;
  }

  // The output of an execution.

  datatype Output = Output(stdout: PyStr, stderr: PyStr, exitCode: Option<int>)

  function ExitCodeJson(code: Option<int>): Json {
    if code.None? then Null else Int(code.value)
  }

  function OutputMembers(o: Output): seq<Member> {
    [Member(Lit("stdout"), Str(o.stdout)),
     Member(Lit("stderr"), Str(o.stderr)),
     Member(Lit("exit_code"), ExitCodeJson(o.exitCode))]
  }

  /** The text `generate_output_attestation` hashes. */
  function OutputText(o: Output): string {
    Encode(Obj(SortKeys(OutputMembers(o))), Compact)
  }

  lemma OutputKeysSorted(o: Output)
    ensures SortKeys(OutputMembers(o)) == [OutputMembers(o)[2], OutputMembers(o)[1], OutputMembers(o)[0]]
  {
    var ms := OutputMembers(o);
    var out, err, code := ms[0], ms[1], ms[2];
    assert code.key[0] == 'e' as int && err.key[0] == 's' as int && out.key[0] == 's' as int;
    assert err.key[1] == 't' as int && out.key[1] == 't' as int;
    assert err.key[2] == 'd' as int && out.key[2] == 'd' as int;
    assert err.key[3] == 'e' as int && out.key[3] == 'o' as int;
    assert Before(err.key[3..], out.key[3..]) && !Before(out.key[3..], err.key[3..]);
    assert err.key[2..][1..] == err.key[3..] && out.key[2..][1..] == out.key[3..];
    assert Before(err.key[2..], out.key[2..]) && !Before(out.key[2..], err.key[2..]);
    assert err.key[1..][1..] == err.key[2..] && out.key[1..][1..] == out.key[2..];
    assert Before(err.key[1..], out.key[1..]) && !Before(out.key[1..], err.key[1..]);
    assert ms[1..] == [err, code] && ms[1..][1..] == [code] && [code][1..] == [];
    assert SortKeys([code]) == [code];
    assert !Before(err.key, code.key) && !Before(out.key, code.key);
    assert [err][1..] == [] && Insert(err, []) == [err];
    assert SortKeys([err, code]) == [code, err];
    assert Insert(out, [err]) == [err, out];
    assert [code, err][1..] == [err];
  }

  /** What a reader takes from a document with the members exit_code, stderr, stdout. */
  function OutputOf(doc: Json): Option<Output> {
    if !doc.Obj? || |doc.members| != 3 then None
    else
      match (doc.members[0].value, doc.members[1].value, doc.members[2].value)
      case (Null, Str(err), Str(out)) => Some(Output(out, err, None))
      case (Int(n), Str(err), Str(out)) => Some(Output(out, err, Some(n)))
      case _ => None
  }

  function ReadOutput(text: string): Option<Output> {
    match Parse(text)
    case Some(doc) => OutputOf(doc)
    case None => None
  }

  function NormalOutput(o: Output): Output {
    Output(Normal(o.stdout), Normal(o.stderr), o.exitCode)
  }

  lemma {:induction false} ThreeNormalMembers(a: Member, b: Member, c: Member)
    ensures NormalMembers([a, b, c]) == [NormalMember(a), NormalMember(b), NormalMember(c)]
  {
    assert [a, b, c][1..] == [b, c] && [b, c][1..] == [c] && [c][1..] == [];
    assert NormalMembers([c]) == [NormalMember(c)];
    assert NormalMembers([b, c]) == [NormalMember(b), NormalMember(c)];
  }

  lemma {:induction false} ParseThree(a: Member, b: Member, c: Member)
    ensures Parse(Encode(Obj([a, b, c]), Compact)) == Some(Obj([NormalMember(a), NormalMember(b), NormalMember(c)]))
  {
    ParseUndoesEncode(Obj([a, b, c]), Compact);
    ThreeNormalMembers(a, b, c);
  }

  lemma ReadThree(o: Output, code: Member, err: Member, out: Member)
    requires code.value == ExitCodeJson(o.exitCode) && err.value == Str(o.stderr) && out.value == Str(o.stdout)
    ensures ReadOutput(Encode(Obj([code, err, out]), Compact)) == Some(NormalOutput(o))
  {
    ParseThree(code, err, out);
  }

  /** The canonical output text reads back to the output it was written for. */
  lemma ReadOutputUndoesText(o: Output)
    ensures ReadOutput(OutputText(o)) == Some(NormalOutput(o))
  {
    OutputKeysSorted(o);
    var ms := OutputMembers(o);
    ReadThree(o, ms[2], ms[1], ms[0]);
  }

  lemma OutputAlike(o: Output)
    ensures Alike(OutputMembers(o), OutputMembers(NormalOutput(o)))
  {
    UnitsOfJoined(Units(o.stdout));
    UnitsOfJoined(Units(o.stderr));
  }

  lemma {:induction false} EncodeOfNormalOutput(o: Output)
    ensures OutputText(NormalOutput(o)) == OutputText(o)
  {
    var ms, ns := OutputMembers(o), OutputMembers(NormalOutput(o));
    OutputAlike(o);
    SortAlike(ms, ns);
    AlikeReadBackSame(SortKeys(ms), SortKeys(ns));
    SameTextIff(Obj(SortKeys(ms)), Obj(SortKeys(ns)), Compact);
  }

  /** For all outputs: equal texts exactly when they agree after joining split surrogate pairs. */
  lemma OutputTextExactly(a: Output, b: Output)
    ensures OutputText(a) == OutputText(b) <==> NormalOutput(a) == NormalOutput(b)
  {
    ReadOutputUndoesText(a);
    ReadOutputUndoesText(b);
    EncodeOfNormalOutput(a);
    EncodeOfNormalOutput(b);
  }

  /** Text decoded from bytes holds scalar values only: no surrogates. */
  ghost predicate ScalarOnly(s: PyStr) {
    forall i :: 0 <= i < |s| ==> !(0xD800 <= s[i] < 0xE000)
  }

  /** Over decoded text the canonical text is injective in (stdout, stderr, exit_code). */
  lemma OutputTextInjective(a: Output, b: Output)
    requires ScalarOnly(a.stdout) && ScalarOnly(a.stderr) && ScalarOnly(b.stdout) && ScalarOnly(b.stderr)
    requires OutputText(a) == OutputText(b)
    ensures a == b
  {
    OutputTextExactly(a, b);
    NormalIffNoSplitPair(a.stdout);
    NormalIffNoSplitPair(a.stderr);
    NormalIffNoSplitPair(b.stdout);
    NormalIffNoSplitPair(b.stderr);
  }

  /** The delimiter-glued form that the canonical text replaced. */
  function GluedText(o: Output): PyStr {
    Lit("stdout:") + o.stdout + Lit("\nstderr:") + o.stderr + Lit("\nexit_code:")
    + Lit(if o.exitCode.None? then "None" else Decimal(o.exitCode.value))
  }

  /** A delimiter inside a stream moves the boundary: three pieces can be split in two ways. */
  lemma GluedTextCollides(x: PyStr, y: PyStr, z: PyStr, code: Option<int>)
    ensures var cut := Lit("\nstderr:");
            var a, b := Output(x + cut + y, z, code), Output(x, y + cut + z, code);
            a != b && GluedText(a) == GluedText(b)
  {
  }
}
