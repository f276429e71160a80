/**
 * Digest-pinned artifact references: the allowlist of the build driver, its two helpers,
 * and the executor's own computation of an immutable image reference.
 */
module ArtifactRef {
  import opened Prelude

  // Python string operations.

  /** `s.find(c)`, or -1. */
  function Find(s: string, c: char): (i: int)
    ensures -1 <= i < |s|
    ensures i >= 0 ==> s[i] == c && forall j :: 0 <= j < i ==> s[j] != c
    ensures i < 0 ==> forall j :: 0 <= j < |s| ==> s[j] != c
  {
    if s == "" then -1
    else if s[0] == c then 0
    else
      var i := Find(s[1..], c);
      assert forall j :: 1 <= j < |s| ==> s[j] == s[1..][j - 1];
      if i < 0 then -1 else i + 1
  }

  /** `s.rfind(c)`, or -1. */
  function RFind(s: string, c: char): (i: int)
    ensures -1 <= i < |s|
    ensures i >= 0 ==> s[i] == c
    ensures forall j :: i < j < |s| ==> s[j] != c
  {
    if s == "" then -1
    else
      var n := |s| - 1;
      if s[n] == c then n
      else
        RFind(s[..n], c)
  }

  /** Position of the first occurrence of `sub`, or -1. */
  function FindText(s: string, sub: string): (i: int)
    requires sub != ""
    ensures -1 <= i <= |s| - |sub| || i == -1
    ensures i >= 0 ==> sub <= s[i..]
  {
    if sub <= s then 0
    else if s == "" then -1
    else
      var i := FindText(s[1..], sub);
      assert i >= 0 ==> s[1..][i..] == s[i + 1..];
      if i < 0 then -1 else i + 1
  }

  /** `s.split('/')[-1]` */
  function LastSegment(s: string): string {
    s[RFind(s, '/') + 1..]
  }

  // The helpers of the build driver.

  const PIN := "@sha256:"

  function ExtractDigest(artifactRef: string): Result<string, string> {
    if FindText(artifactRef, PIN) < 0 then Failure("No digest found in artifact reference")
    else
      var at := Find(artifactRef, '@');
      if at < 0 then Failure("No digest found in artifact reference")
      else Success(artifactRef[at + 1..])
  }

  function StripTag(base: string): string {
    if ':' in LastSegment(base) then
      var colon := RFind(base, ':');
      if colon < 0 then base else base[..colon]
    else base
  }

  /** The source fails to unpack the split when there is no '@'. */
  function DigestPinnedRef(artifactRef: string): Result<string, string> {
    var at := Find(artifactRef, '@');
    if at < 0 then Failure("not enough values to unpack")
    else Success(StripTag(artifactRef[..at]) + artifactRef[at..])
  }

  // The executor's computation, with a digest configured.

  function StripMutableTag(repository: string): string {
    if ':' !in repository then repository
    else
      var slash := RFind(repository, '/');
      var after := repository[slash + 1..];
      var colon := Find(after, ':');
      if colon < 0 then repository else repository[..slash + 1] + after[..colon]
  }

  function ExecutorRepository(image: string): string {
    var pin := FindText(image, PIN);
    StripMutableTag(if pin >= 0 then image[..pin] else image)
  }

  function ImmutableImageRef(image: string, digest: string): string {
    ExecutorRepository(image) + PIN + (if "sha256:" <= digest then digest[7..] else digest)
  }

  // The allowlist pattern.

  predicate Allowed(c: char) {
    'a' <= c <= 'z' || 'A' <= c <= 'Z' || '0' <= c <= '9' || c == '.' || c == '_' || c == '-'
  }

  predicate Name(s: string) {
    s != "" && forall i :: 0 <= i < |s| ==> Allowed(s[i])
  }

  predicate Hex64(s: string) {
    |s| == 64 && forall i :: 0 <= i < 64 ==> '0' <= s[i] <= '9' || 'a' <= s[i] <= 'f' || 'A' <= s[i] <= 'F'
  }

  /** The pieces a match of the pattern consists of; `$` also matches before a final newline. */
  datatype Parts = Parts(segments: seq<string>, tag: Option<string>, hex: string, newline: bool)

  ghost predicate WellFormed(p: Parts) {
    && |p.segments| >= 2
    && (forall i :: 0 <= i < |p.segments| ==> Name(p.segments[i]))
    && (p.tag.Some? ==> Name(p.tag.value))
    && Hex64(p.hex)
  }

  function Slashed(segments: seq<string>): string {
    if segments == [] then "" else "/" + segments[0] + Slashed(segments[1..])
  }

  function Path(p: Parts): string {
    "ghcr.io" + Slashed(p.segments)
  }

  function Base(p: Parts): string {
    Path(p) + (if p.tag.Some? then ":" + p.tag.value else "")
  }

  function Ending(p: Parts): string {
    p.hex + (if p.newline then "\n" else "")
  }

  function Render(p: Parts): string {
    Base(p) + PIN + Ending(p)
  }

  /** The references `validate_artifact_reference` lets through. */
  ghost predicate Accepted(artifactRef: string) {
    exists p :: WellFormed(p) && Render(p) == artifactRef
  }

  // References with one '@'.

  lemma {:induction false} FindIs(s: string, c: char, k: nat)
    requires k < |s| && s[k] == c && forall j :: 0 <= j < k ==> s[j] != c
    ensures Find(s, c) == k
  {
    var i := Find(s, c);
  }

  lemma {:induction false} RFindIs(s: string, c: char, k: nat)
    requires k < |s| && s[k] == c && forall j :: k < j < |s| ==> s[j] != c
    ensures RFind(s, c) == k
  {
    var i := RFind(s, c);
  }

  lemma {:induction false} FindPin(base: string, ending: string)
    requires '@' !in base
    ensures FindText(base + PIN + ending, PIN) == |base|
  {
    var s := base + PIN + ending;
    if base == "" {
      assert PIN <= s;
    } else {
      assert s[0] == base[0] && PIN[0] == '@';
      assert base[0] in base;
      assert base == [base[0]] + base[1..];
      assert s[1..] == base[1..] + PIN + ending;
      FindPin(base[1..], ending);
    }
  }

  lemma SplitAtPin(base: string, ending: string)
    requires '@' !in base
    ensures var s := base + PIN + ending;
            Find(s, '@') == |base| && s[..|base|] == base
            && s[|base|..] == PIN + ending && s[|base| + 1..] == "sha256:" + ending
  {
    var s := base + PIN + ending;
    assert s[|base|] == '@';
    FindIs(s, '@', |base|);
  }

  lemma {:induction false} PinnedParts(base: string, ending: string)
    requires '@' !in base
    ensures DigestPinnedRef(base + PIN + ending) == Success(StripTag(base) + PIN + ending)
    ensures ExtractDigest(base + PIN + ending) == Success("sha256:" + ending)
  {
    SplitAtPin(base, ending);
    FindPin(base, ending);
    Assoc(StripTag(base), PIN, ending);
  }

  lemma {:induction false} ExecutorParts(base: string, ending: string)
    requires '@' !in base
    ensures ImmutableImageRef(base + PIN + ending, "sha256:" + ending) == StripMutableTag(base) + PIN + ending
  {
    FindPin(base, ending);
    assert (base + PIN + ending)[..|base|] == base;
    assert ("sha256:" + ending)[7..] == ending;
  }

  lemma {:induction false} CutAtLast(base: string, seg: string)
    requires seg == LastSegment(base) && RFind(seg, ':') >= 0
    ensures StripTag(base) == base[..|base| - |seg| + RFind(seg, ':')]
  {
    var k := |base| - |seg|;
    assert forall j :: k <= j < |base| ==> base[j] == seg[j - k];
    assert seg[RFind(seg, ':')] == ':';
    RFindIs(base, ':', k + RFind(seg, ':'));
  }

  lemma {:induction false} CutAtFirst(base: string, seg: string)
    requires seg == LastSegment(base) && Find(seg, ':') >= 0
    ensures StripMutableTag(base) == base[..|base| - |seg| + Find(seg, ':')]
  {
    var k := |base| - |seg|;
    assert base[k + Find(seg, ':')] == ':';
    assert base[..k] + seg[..Find(seg, ':')] == base[..k + Find(seg, ':')];
  }

  lemma {:induction false} NothingToCut(base: string, seg: string)
    requires seg == LastSegment(base) && ':' !in seg
    ensures StripTag(base) == base && StripMutableTag(base) == base
  {
  }

  lemma PrefixLengths(base: string, i: nat, j: nat)
    requires i <= |base| && j <= |base|
    ensures base[..i] == base[..j] <==> i == j
  {
    if base[..i] == base[..j] {
      assert |base[..i]| == |base[..j]|;
    }
  }

  /**
   * The driver cuts at the last colon of the last path segment, the executor at the first
   * one: they agree exactly on references whose last segment has at most one colon.
   */
  lemma {:induction false} StripsAgreeIff(base: string)
    ensures StripTag(base) == StripMutableTag(base)
            <==> Find(LastSegment(base), ':') == RFind(LastSegment(base), ':')
  {
    var seg := LastSegment(base);
    var first, last := Find(seg, ':'), RFind(seg, ':');
    if ':' in seg {
      CutAtLast(base, seg);
      CutAtFirst(base, seg);
      PrefixLengths(base, |base| - |seg| + last, |base| - |seg| + first);
    } else {
      NothingToCut(base, seg);
    }
  }

  lemma SameFront(a: string, b: string, ending: string)
    ensures a + PIN + ending == b + PIN + ending <==> a == b
  {
    var x, y := a + PIN + ending, b + PIN + ending;
    if x == y {
      assert a == x[..|x| - |PIN| - |ending|] && b == y[..|y| - |PIN| - |ending|];
    }
  }

  /** The same for whole references whose first '@' starts the digest. */
  lemma {:induction false} OneAtAgreesIff(base: string, ending: string)
    requires '@' !in base
    ensures var ref := base + PIN + ending;
            ExtractDigest(ref).Success?
            && (DigestPinnedRef(ref) == Success(ImmutableImageRef(ref, ExtractDigest(ref).value))
                <==> Find(LastSegment(base), ':') == RFind(LastSegment(base), ':'))
  {
    PinnedParts(base, ending);
    ExecutorParts(base, ending);
    StripsAgreeIff(base);
    SameFront(StripTag(base), StripMutableTag(base), ending);
  }

  lemma {:induction false} FindTextFirst(s: string, sub: string, j: nat)
    requires sub != "" && j <= |s| && sub <= s[j..]
    ensures 0 <= FindText(s, sub) <= j
  {
    if !(sub <= s) {
      assert s[0..] == s;
      assert s[1..][j - 1..] == s[j..];
      FindTextFirst(s[1..], sub, j - 1);
    }
  }

  lemma DifferentJoints(a: string, b: string, rest: string)
    ensures a + ("@" + rest) != b + PIN + rest
  {
    var x, y := a + ("@" + rest), b + PIN + rest;
    if |x| == |y| {
      assert x[|x| - |rest| - 1] == '@' && y[|y| - |rest| - 1] == ':';
    }
  }

  lemma PinFromHere(ref: string, at: nat)
    requires at < |ref| && ref[at] == '@' && "sha256:" <= ref[at + 1..]
    ensures PIN <= ref[at..]
  {
    var s, t := ref[at..], ref[at + 1..];
    assert forall j :: 0 <= j < |t| ==> s[j + 1] == t[j];
    assert s == "@" + t;
    assert PIN == "@" + "sha256:";
  }

  lemma {:induction false} NoPinBefore(ref: string, at: nat)
    requires at < FindText(ref, PIN) && ref[at] == '@'
    ensures !("sha256:" <= ref[at + 1..])
  {
    hide FindText;
    if "sha256:" <= ref[at + 1..] {
      PinFromHere(ref, at);
      FindTextFirst(ref, PIN, at);
    }
  }

  /** The driver cuts at the first '@', the executor at the first digest: with another '@' before it they differ. */
  lemma {:induction false} EarlierAtDisagrees(ref: string, at: nat)
    requires at == Find(ref, '@') && at < FindText(ref, PIN)
    ensures DigestPinnedRef(ref) != Success(ImmutableImageRef(ref, ref[at + 1..]))
  {
    NoPinBefore(ref, at);
    hide StripTag, ExecutorRepository, FindText, Find;
    assert ref[at..] == "@" + ref[at + 1..];
    DifferentJoints(StripTag(ref[..at]), ExecutorRepository(ref), ref[at + 1..]);
  }

  lemma {:induction false} PinHasAt(ref: string)
    requires FindText(ref, PIN) >= 0
    ensures 0 <= Find(ref, '@') <= FindText(ref, PIN) && ExtractDigest(ref) == Success(ref[Find(ref, '@') + 1..])
  {
    assert ref[FindText(ref, PIN)] == PIN[0];
  }

  lemma SplitAround(ref: string, at: nat)
    requires at <= |ref| && PIN <= ref[at..]
    ensures at + |PIN| <= |ref| && ref == ref[..at] + PIN + ref[at + |PIN|..]
  {
    var tail := ref[at..];
    assert tail == PIN + tail[|PIN|..];
    assert tail[|PIN|..] == ref[at + |PIN|..];
    Assoc(ref[..at], PIN, tail[|PIN|..]);
    assert ref == ref[..at] + tail;
  }

  lemma {:induction false} SplitAtFirstPin(ref: string)
    requires FindText(ref, PIN) >= 0 && Find(ref, '@') == FindText(ref, PIN)
    ensures var at := Find(ref, '@');
            at + |PIN| <= |ref| && ref == ref[..at] + PIN + ref[at + |PIN|..] && '@' !in ref[..at]
  {
    SplitAround(ref, Find(ref, '@'));
  }

  /**
   * For every reference with a digest: the driver and the executor compute one pinned form
   * exactly if the first '@' starts the digest and the last path segment before it has at
   * most one colon.
   */
  lemma {:induction false} PinningAgreesIff(ref: string)
    requires FindText(ref, PIN) >= 0
    ensures ExtractDigest(ref).Success?
    ensures DigestPinnedRef(ref) == Success(ImmutableImageRef(ref, ExtractDigest(ref).value))
            <==> var at := Find(ref, '@');
                 at == FindText(ref, PIN) && Find(LastSegment(ref[..at]), ':') == RFind(LastSegment(ref[..at]), ':')
  {
    hide Find, FindText, RFind, LastSegment, DigestPinnedRef, ImmutableImageRef, ExtractDigest;
    PinHasAt(ref);
    var at := Find(ref, '@');
    if at < FindText(ref, PIN) {
      EarlierAtDisagrees(ref, at);
    } else {
      SplitAtFirstPin(ref);
      OneAtAgreesIff(ref[..at], ref[at + |PIN|..]);
    }
  }

  // Accepted references.

  lemma {:induction false} SlashedCharacters(segments: seq<string>)
    requires forall i :: 0 <= i < |segments| ==> Name(segments[i])
    ensures '@' !in Slashed(segments) && ':' !in Slashed(segments)
  {
    if segments != [] {
      SlashedCharacters(segments[1..]);
      assert Name(segments[0]);
      assert '@' !in segments[0] && ':' !in segments[0];
    }
  }

  lemma PathCharacters(p: Parts)
    requires WellFormed(p)
    ensures '@' !in Path(p) && ':' !in Path(p) && '@' !in Base(p)
  {
    SlashedCharacters(p.segments);
    assert '@' !in "ghcr.io" && ':' !in "ghcr.io";
  }

  lemma {:induction false} NoColonNoTag(path: string)
    requires ':' !in path
    ensures StripTag(path) == path && ':' !in LastSegment(path)
    ensures Find(LastSegment(path), ':') == RFind(LastSegment(path), ':')
  {
  }

  lemma {:induction false} OneColonIsTag(base: string, k: nat)
    requires k < |base| && base[k] == ':' && forall j :: 0 <= j < |base| && base[j] == ':' ==> j == k
    requires forall j :: k < j < |base| ==> base[j] != '/'
    ensures StripTag(base) == base[..k]
    ensures Find(LastSegment(base), ':') == RFind(LastSegment(base), ':')
  {
    RFindIs(base, ':', k);
    var seg := LastSegment(base);
    var d := |base| - |seg|;
    assert forall j :: 0 <= j < |seg| ==> seg[j] == base[d + j];
    FindIs(seg, ':', k - d);
    RFindIs(seg, ':', k - d);
  }

  lemma NameCharacters(s: string)
    requires Name(s)
    ensures forall i :: 0 <= i < |s| ==> s[i] != ':' && s[i] != '/'
  {
  }

  lemma {:induction false} BaseOfParts(p: Parts)
    requires WellFormed(p)
    ensures StripTag(Base(p)) == Path(p)
    ensures Find(LastSegment(Base(p)), ':') == RFind(LastSegment(Base(p)), ':')
  {
    hide StripTag, LastSegment, Find, RFind, Path, Slashed;
    PathCharacters(p);
    if p.tag.None? {
      assert Base(p) == Path(p);
      NoColonNoTag(Path(p));
    } else {
      var tag, n := p.tag.value, |Path(p)|;
      var base := Base(p);
      NameCharacters(tag);
      hide Name, WellFormed;
      assert base[n] == ':' && base[..n] == Path(p);
      assert forall j :: n < j < |base| ==> base[j] == tag[j - n - 1];
      OneColonIsTag(base, n);
    }
  }

  /** The parts of the pinned form: the same path and digest, no tag. */
  lemma PinnedFormOfParts(p: Parts)
    requires WellFormed(p)
    ensures DigestPinnedRef(Render(p)) == Success(Render(p.(tag := None)))
    ensures ExtractDigest(Render(p)) == Success("sha256:" + Ending(p))
  {
    PathCharacters(p);
    BaseOfParts(p);
    PinnedParts(Base(p), Ending(p));
    var q := p.(tag := None);
    assert Base(q) == Path(p) && Ending(q) == Ending(p);
  }

  /**
   * For every accepted reference the pinned form is accepted, carries the same digest and no
   * tag, and pinning it again changes nothing.
   */
  lemma PinningAcceptedRef(artifactRef: string)
    requires Accepted(artifactRef)
    ensures DigestPinnedRef(artifactRef).Success?
    ensures var pinned := DigestPinnedRef(artifactRef).value;
            && Accepted(pinned)
            && ExtractDigest(pinned) == ExtractDigest(artifactRef)
            && DigestPinnedRef(pinned) == Success(pinned)
            && ':' !in LastSegment(pinned[..Find(pinned, '@')])
  {
    var p :| WellFormed(p) && Render(p) == artifactRef;
    var q := p.(tag := None);
    assert WellFormed(q) && q.(tag := None) == q;
    PinnedFormOfParts(p);
    PinnedFormOfParts(q);
    PathCharacters(q);
    SplitAtPin(Base(q), Ending(q));
    assert Base(q) == Path(q);
    NoColonNoTag(Path(q));
  }

  /** The executor computes the same reference for the same image and digest. */
  lemma ExecutorAgreesOnAcceptedRef(artifactRef: string)
    requires Accepted(artifactRef)
    ensures ExtractDigest(artifactRef).Success?
    ensures DigestPinnedRef(artifactRef)
            == Success(ImmutableImageRef(artifactRef, ExtractDigest(artifactRef).value))
  {
    var p :| WellFormed(p) && Render(p) == artifactRef;
    PathCharacters(p);
    BaseOfParts(p);
    PinnedParts(Base(p), Ending(p));
    OneAtAgreesIff(Base(p), Ending(p));
  }
}
