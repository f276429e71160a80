/**
 * Pass 1 of the build driver for one flavor: seven remote steps in order, the first failing
 * one ends it. What the remote host answers is a parameter.
 */
module BuildFlavor {
  import opened Prelude
  import opened ArtifactRef

  /** An entry of the flavors manifest. */
  datatype Flavor = Flavor(name: string, artifactRef: string, imageDigest: Option<string>)

  /** RuntimeError; one of the transport exceptions; any other exception. */
  datatype Failure = Application | Transport | Other

  datatype Reply<+T> = Got(value: T) | Raise(failure: Failure)

  datatype Manifest = FetchFailed | Unparsable | Annotations(debug: Option<string>)

  /** The host's answers to the seven steps of one flavor. */
  datatype Answers = Answers(
    wipe: Reply<()>, verify: Reply<bool>, pull: Reply<()>, files: Reply<()>,
    manifest: Reply<Manifest>, pcrs: Reply<string>, upload: Reply<string>)

  datatype Step =
    | Wiped
    | Verified(ref: string)
    | Pulled(ref: string)
    | FilesChecked
    | GatePassed(ref: string)
    | PcrsRead
    | Uploaded(snapshot: string)

  /** What the driver did, in order. `conn` numbers the SSH connections of the run. */
  datatype Action =
    | Began(conn: nat, name: string)
    | Remote(conn: nat, name: string, step: Step)
    | Broke(name: string, failure: Failure)
    | Reconnected(name: string, conn: nat)
    | Killed(name: string, ok: bool)
    | HostDead(name: string)
    | Registered(name: string, snapshot: string, ami: string, imageDigest: Option<string>)
    | ResultWritten(name: string, ami: string)

  datatype Captured = Captured(name: string, snapshot: string, pcrs: string, imageDigest: Option<string>)

  /** A step together with how it fails on these answers, if it does. */
  datatype StepFate = StepFate(step: Step, fails: Option<Failure>)

  function RaisedBy<T>(r: Reply<T>): Option<Failure> {
    if r.Got? then None else Some(r.failure)
  }

  function SignatureFate(r: Reply<bool>): Option<Failure> {
    if r == Got(false) then Some(Application) else RaisedBy(r)
  }

  /** The production gate: closed for debug images and for manifests that cannot be read. */
  function GateFate(r: Reply<Manifest>, allowDebug: bool): Option<Failure> {
    match r
    case Raise(f) => Some(f)
    case Got(Annotations(debug)) => if debug == Some("true") && !allowDebug then Some(Application) else None
    case Got(_) => if allowDebug then None else Some(Application)
  }

  /** The reference used for verification, pull and gate. */
  function Target(f: Flavor): string
    requires Accepted(f.artifactRef)
  {
    PinningAcceptedRef(f.artifactRef);
    DigestPinnedRef(f.artifactRef).value
  }

  function Fates(ref: string, a: Answers, allowDebug: bool): (fates: seq<StepFate>)
    ensures |fates| == 7
  {
    [ StepFate(Wiped, RaisedBy(a.wipe)),
      StepFate(Verified(ref), SignatureFate(a.verify)),
      StepFate(Pulled(ref), RaisedBy(a.pull)),
      StepFate(FilesChecked, RaisedBy(a.files)),
      StepFate(GatePassed(ref), GateFate(a.manifest, allowDebug)),
      StepFate(PcrsRead, RaisedBy(a.pcrs)),
      StepFate(Uploaded(if a.upload.Got? then a.upload.value else ""), RaisedBy(a.upload)) ]
  }

  /** How many steps succeed before the first failing one. */
  function Completed(fates: seq<StepFate>): (n: nat)
    ensures n <= |fates|
    ensures forall i :: 0 <= i < n ==> fates[i].fails.None?
    ensures n < |fates| ==> fates[n].fails.Some?
  {
    if fates == [] || fates[0].fails.Some? then 0 else 1 + Completed(fates[1..])
  }

  function FirstFailure(fates: seq<StepFate>): Option<Failure> {
    if Completed(fates) < |fates| then fates[Completed(fates)].fails else None
  }

  /** The actions of one attempt: its beginning, and the first `n` steps, which succeeded. */
  function StepLog(conn: nat, name: string, fates: seq<StepFate>, n: nat): seq<Action>
    requires n <= |fates|
  {
    if n == 0 then [Began(conn, name)]
    else StepLog(conn, name, fates, n - 1) + [Remote(conn, name, fates[n - 1].step)]
  }

  function CapturedBy(f: Flavor, a: Answers): Captured {
    Captured(f.name, if a.upload.Got? then a.upload.value else "", if a.pcrs.Got? then a.pcrs.value else "",
             f.imageDigest)
  }

  lemma {:induction false} StepLogAt(conn: nat, name: string, fates: seq<StepFate>, n: nat)
    requires n <= |fates|
    ensures var log := StepLog(conn, name, fates, n);
            |log| == n + 1 && log[0] == Began(conn, name)
            && forall j :: 0 <= j < n ==> log[j + 1] == Remote(conn, name, fates[j].step)
  {
    if n > 0 {
      StepLogAt(conn, name, fates, n - 1);
    }
  }

  lemma {:induction false} CompletedIs(fates: seq<StepFate>, n: nat)
    requires n <= |fates| && forall i :: 0 <= i < n ==> fates[i].fails.None?
    requires n < |fates| ==> fates[n].fails.Some?
    ensures Completed(fates) == n
  {
  }

  // The same on the answers themselves.

  /** The production gate opens for this manifest. */
  predicate GateOpen(m: Manifest, allowDebug: bool) {
    allowDebug || (m.Annotations? && m.debug != Some("true"))
  }

  /** All seven steps go through. */
  predicate Passes(a: Answers, allowDebug: bool) {
    && a.wipe.Got? && a.verify.Got? && a.verify.value && a.pull.Got? && a.files.Got?
    && a.manifest.Got? && GateOpen(a.manifest.value, allowDebug) && a.pcrs.Got? && a.upload.Got?
  }

  /** How the first step that does not go through fails. */
  function Trouble(a: Answers, allowDebug: bool): Failure
    requires !Passes(a, allowDebug)
  {
    if a.wipe.Raise? then a.wipe.failure
    else if a.verify.Raise? then a.verify.failure
    else if !a.verify.value then Application
    else if a.pull.Raise? then a.pull.failure
    else if a.files.Raise? then a.files.failure
    else if a.manifest.Raise? then a.manifest.failure
    else if !GateOpen(a.manifest.value, allowDebug) then Application
    else if a.pcrs.Raise? then a.pcrs.failure
    else a.upload.failure
  }

  /** How many steps go through before it. */
  function StepsDone(a: Answers, allowDebug: bool): nat {
    if a.wipe.Raise? then 0
    else if a.verify.Raise? || !a.verify.value then 1
    else if a.pull.Raise? then 2
    else if a.files.Raise? then 3
    else if a.manifest.Raise? || !GateOpen(a.manifest.value, allowDebug) then 4
    else if a.pcrs.Raise? then 5
    else if a.upload.Raise? then 6
    else 7
  }

  /** The closed form by step fates is that. */
  lemma FatesSay(ref: string, a: Answers, allowDebug: bool)
    ensures Completed(Fates(ref, a, allowDebug)) == StepsDone(a, allowDebug)
    ensures FirstFailure(Fates(ref, a, allowDebug))
         == if Passes(a, allowDebug) then None else Some(Trouble(a, allowDebug))
  {
    var fates := Fates(ref, a, allowDebug);
    assert a.verify.Got? ==> a.verify == Got(a.verify.value);
    assert fates[1].fails.None? <==> a.verify.Got? && a.verify.value;
    assert fates[4].fails.None? <==> a.manifest.Got? && GateOpen(a.manifest.value, allowDebug);
    CompletedIs(fates, StepsDone(a, allowDebug));
  }

  /** The beginning and all steps, in order. */
  function FullLog(conn: nat, name: string, ref: string, upload: Reply<string>): seq<Action> {
    [Began(conn, name), Remote(conn, name, Wiped), Remote(conn, name, Verified(ref)), Remote(conn, name, Pulled(ref)),
     Remote(conn, name, FilesChecked), Remote(conn, name, GatePassed(ref)), Remote(conn, name, PcrsRead)]
    + (if upload.Got? then [Remote(conn, name, Uploaded(upload.value))] else [])
  }

  lemma {:induction false} StepLogIs(conn: nat, name: string, ref: string, a: Answers, allowDebug: bool, n: nat)
    requires n == StepsDone(a, allowDebug)
    ensures var log := StepLog(conn, name, Fates(ref, a, allowDebug), n);
            |log| == 1 + n && log <= FullLog(conn, name, ref, a.upload)
  {
    var fates, full := Fates(ref, a, allowDebug), FullLog(conn, name, ref, a.upload);
    var log := StepLog(conn, name, fates, n);
    StepLogAt(conn, name, fates, n);
    hide StepLog;
    forall k | 0 <= k < |log|
      ensures k < |full| && log[k] == full[k]
    {
      if k > 0 {
        assert log[(k - 1) + 1] == Remote(conn, name, fates[k - 1].step);
      }
    }
  }

  method BuildFlavorPass1(conn: nat, f: Flavor, a: Answers, allowDebug: bool)
    returns (r: Result<Captured, Failure>, log: seq<Action>)
    requires Accepted(f.artifactRef)
    ensures var fates := Fates(Target(f), a, allowDebug);
            && log == StepLog(conn, f.name, fates, Completed(fates))
            && r == match FirstFailure(fates)
                    case None => Success(CapturedBy(f, a))
                    case Some(failure) => Failure(failure)
    ensures r.Success? <==>
        && a.wipe.Got? && a.verify.Got? && a.verify.value && a.pull.Got? && a.files.Got? && a.manifest.Got?
        && (allowDebug || (a.manifest.value.Annotations? && a.manifest.value.debug != Some("true")))
        && a.pcrs.Got? && a.upload.Got?
    ensures r.Success? ==> r.value == Captured(f.name, a.upload.value, a.pcrs.value, f.imageDigest)
    ensures r.Failure? ==> r.error == Trouble(a, allowDebug)
    ensures |log| == 1 + StepsDone(a, allowDebug) && log <= FullLog(conn, f.name, Target(f), a.upload)
  {
    r, log := RunSteps(conn, f.name, Target(f), f.imageDigest, a, allowDebug, Fates(Target(f), a, allowDebug));
    FatesSay(Target(f), a, allowDebug);
    StepLogIs(conn, f.name, Target(f), a, allowDebug, StepsDone(a, allowDebug));
  }

  /** The seven steps; `fates` lists them with how each one ends. */
  method RunSteps(conn: nat, name: string, ref: string, imageDigest: Option<string>, a: Answers, allowDebug: bool,
                  ghost fates: seq<StepFate>)
    returns (r: Result<Captured, Failure>, log: seq<Action>)
    requires |fates| == 7
    requires fates[0] == StepFate(Wiped, RaisedBy(a.wipe))
    requires fates[1] == StepFate(Verified(ref), SignatureFate(a.verify))
    requires fates[2] == StepFate(Pulled(ref), RaisedBy(a.pull))
    requires fates[3] == StepFate(FilesChecked, RaisedBy(a.files))
    requires fates[4] == StepFate(GatePassed(ref), GateFate(a.manifest, allowDebug))
    requires fates[5] == StepFate(PcrsRead, RaisedBy(a.pcrs))
    requires fates[6] == StepFate(Uploaded(if a.upload.Got? then a.upload.value else ""), RaisedBy(a.upload))
    ensures log == StepLog(conn, name, fates, Completed(fates))
    ensures FirstFailure(fates).None? ==>
        a.upload.Got? && a.pcrs.Got? && r == Success(Captured(name, a.upload.value, a.pcrs.value, imageDigest))
    ensures FirstFailure(fates).Some? ==> r == Failure(FirstFailure(fates).value)
  {
    log := [Began(conn, name)];
    if a.wipe.Raise? {
      CompletedIs(fates, 0);
      return Failure(a.wipe.failure), log;
    }
    log := log + [Remote(conn, name, Wiped)];
    assert log == StepLog(conn, name, fates, 1);
    if a.verify.Raise? {
      CompletedIs(fates, 1);
      return Failure(a.verify.failure), log;
    }
    if !a.verify.value {
      CompletedIs(fates, 1);
      return Failure(Application), log;
    }
    log := log + [Remote(conn, name, Verified(ref))];
    assert log == StepLog(conn, name, fates, 2);
    if a.pull.Raise? {
      CompletedIs(fates, 2);
      return Failure(a.pull.failure), log;
    }
    log := log + [Remote(conn, name, Pulled(ref))];
    assert log == StepLog(conn, name, fates, 3);
    if a.files.Raise? {
      CompletedIs(fates, 3);
      return Failure(a.files.failure), log;
    }
    log := log + [Remote(conn, name, FilesChecked)];
    assert log == StepLog(conn, name, fates, 4);
    var gate := CheckDebugAnnotation(a.manifest, allowDebug);
    if gate.Some? {
      CompletedIs(fates, 4);
      return Failure(gate.value), log;
    }
    log := log + [Remote(conn, name, GatePassed(ref))];
    assert log == StepLog(conn, name, fates, 5);
    if a.pcrs.Raise? {
      CompletedIs(fates, 5);
      return Failure(a.pcrs.failure), log;
    }
    log := log + [Remote(conn, name, PcrsRead)];
    assert log == StepLog(conn, name, fates, 6);
    if a.upload.Raise? {
      CompletedIs(fates, 6);
      return Failure(a.upload.failure), log;
    }
    log := log + [Remote(conn, name, Uploaded(a.upload.value))];
    assert log == StepLog(conn, name, fates, 7);
    CompletedIs(fates, 7);
    return Success(Captured(name, a.upload.value, a.pcrs.value, imageDigest)), log;
  }

  method CheckDebugAnnotation(reply: Reply<Manifest>, allowDebug: bool) returns (raised: Option<Failure>)
    ensures raised == GateFate(reply, allowDebug)
    ensures raised.None? <==>
        reply.Got? && (allowDebug || (reply.value.Annotations? && reply.value.debug != Some("true")))
    ensures raised.Some? ==> raised.value == if reply.Raise? then reply.failure else Application
  {
    if reply.Raise? {
      return Some(reply.failure);
    }
    match reply.value {
      case FetchFailed =>
        if !allowDebug {
          return Some(Application);
        }
      case Unparsable =>
        if !allowDebug {
          return Some(Application);
        }
      case Annotations(debug) =>
        if debug == Some("true") && !allowDebug {
          return Some(Application);
        }
    }
    return None;
  }
}
