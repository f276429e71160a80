/**
 * `main` of the build script: validation, connecting, the install gate and the two-pass
 * driver, one after the other, and the exit code.
 */
module BuildMain {
  import opened Prelude
  import opened BuildFlavor
  import opened BuildDriver
  import opened BuildRuns
  import InstallGate

  /** Validating the arguments: fine, an error that is caught, or one that is not. */
  datatype Validation = Accepted | Rejected | Broken

  /** Everything one invocation meets; `tools` has one entry per install step. */
  datatype Session = Session(
    validation: Validation, setupOk: bool, connectOk: bool, tools: seq<nat -> InstallGate.Outcome>, maxAttempts: int,
    baseDelay: int, job: Job)

  datatype Exit = Code(code: int) | Crash

  datatype Event =
    | Connected(ok: bool)
    | Tool(index: nat, installed: bool)
    | OnFlavor(action: Action)

  /** Some allowed run of the step ends well after only transient failures; or no run is made at all. */
  ghost predicate Installs(outcome: nat -> InstallGate.Outcome, maxAttempts: int) {
    maxAttempts < 1
    || exists n: nat :: 1 <= n <= maxAttempts && outcome(n) == InstallGate.Done
                        && forall k: nat :: 1 <= k < n ==> outcome(k) == InstallGate.Transient
  }

  ghost predicate GateOpens(s: Session) {
    && s.validation.Accepted? && s.setupOk && s.connectOk
    && forall i :: 0 <= i < |s.tools| ==> Installs(s.tools[i], s.maxAttempts)
  }

  lemma {:induction false} InstalledReport(outcome: nat -> InstallGate.Outcome, max: int, base: int,
                                           r: InstallGate.StepReport)
    requires InstallGate.Reported(outcome, max, base, r)
    ensures r.result.Installed? <==> Installs(outcome, max)
  {
    if max >= 1 {
      InstallGate.InstalledIff(outcome, max, base, r);
    }
  }

  function ToolEvents(reports: seq<InstallGate.StepReport>): seq<Event> {
    seq(|reports|, i requires 0 <= i < |reports| => Tool(i, reports[i].result.Installed?))
  }

  function FlavorEvents(actions: seq<Action>): seq<Event> {
    seq(|actions|, i requires 0 <= i < |actions| => OnFlavor(actions[i]))
  }

  /** The connection, every tool installed in order, and then the whole run of the driver. */
  ghost predicate OpenLog(s: Session, log: seq<Event>)
    requires s.job.Valid()
  {
    var n, run := |s.tools|, RunLog(Turns(s.job), s.job.pass2);
    && |log| == 1 + n + |run| && log[0] == Connected(true)
    && (forall i :: 1 <= i <= n ==> log[i] == Tool(i - 1, true))
    && (forall k :: n < k < |log| ==> log[k] == OnFlavor(run[k - 1 - n]))
  }

  /** The first attempt that failed is the last event; no flavor was touched. */
  ghost predicate ClosedLog(s: Session, log: seq<Event>) {
    && (log == [] <==> !s.validation.Accepted? || !s.setupOk)
    && (log != [] ==>
          && log[0] == Connected(s.connectOk) && (|log| == 1 <==> !s.connectOk)
          && (forall i :: 1 <= i < |log| ==> log[i] == Tool(i - 1, i < |log| - 1)))
  }

  lemma {:induction false} ThenTheRun(s: Session, gate: seq<Event>, actions: seq<Action>)
    requires s.job.Valid() && actions == RunLog(Turns(s.job), s.job.pass2)
    requires |gate| == 1 + |s.tools| && gate[0] == Connected(true)
    requires forall i :: 1 <= i <= |s.tools| ==> gate[i] == Tool(i - 1, true)
    ensures OpenLog(s, gate + FlavorEvents(actions))
  {
    hide RunLog;
  }

  /** No exception leaves the driver, and some attempted flavor goes through both passes. */
  ghost predicate SomeFlavorSucceeds(job: Job)
    requires job.Valid()
  {
    && (forall i :: 0 <= i < |job.flavors| && Attempts(job, i) ==> !Aborts(job.worlds[i], job.allowDebug))
    && exists i :: 0 <= i < |job.flavors| && Attempts(job, i) && BothPasses(job, i)
  }

  /** All seven answers of Pass 1 are good for this flavor, and so are the three of Pass 2. */
  predicate BothPasses(job: Job, i: nat)
    requires i < |job.flavors| == |job.worlds|
  {
    var a, p := job.worlds[i].pass1, job.pass2(job.flavors[i].name);
    && a.wipe.Got? && a.verify.Got? && a.verify.value && a.pull.Got? && a.files.Got? && a.manifest.Got?
    && (job.allowDebug || (a.manifest.value.Annotations? && a.manifest.value.debug != Some("true")))
    && a.pcrs.Got? && a.upload.Got?
    && p.waitOk && p.register.Some? && p.writeOk
  }

  lemma SuccessAt(job: Job, i: nat)
    requires job.Valid() && i < |job.flavors|
    ensures Succeeds(Turns(job), job.pass2, i) <==> Attempts(job, i) && BothPasses(job, i)
  {
    hide Succeeds, Attempts, Turns;
    SucceedsIff(job, i);
  }

  lemma {:induction false} SuccessIs(job: Job)
    requires job.Valid()
    ensures SomeFlavorSucceeds(job)
            <==> !RunEscapes(Turns(job)) && exists i: nat :: i < |Turns(job)| && Succeeds(Turns(job), job.pass2, i)
  {
    hide Succeeds, RunEscapes, Attempts, Aborts, BothPasses, Turns;
    EscapesIff(job);
    forall i | 0 <= i < |job.flavors|
      ensures Succeeds(Turns(job), job.pass2, i) <==> Attempts(job, i) && BothPasses(job, i)
    {
      SuccessAt(job, i);
    }
    if i: nat :| i < |Turns(job)| && Succeeds(Turns(job), job.pass2, i) {
      assert Attempts(job, i) && BothPasses(job, i);
    }
    if i :| 0 <= i < |job.flavors| && Attempts(job, i) && BothPasses(job, i) {
      assert Succeeds(Turns(job), job.pass2, i);
    }
  }

  /** The gate as a method: the connection and the tools, with the events they leave. */
  method OpenGate(s: Session) returns (open: bool, log: seq<Event>)
    requires s.validation.Accepted? && s.setupOk
    ensures open <==> GateOpens(s)
    ensures open ==> |log| == 1 + |s.tools| && log[0] == Connected(true)
                     && forall i :: 1 <= i <= |s.tools| ==> log[i] == Tool(i - 1, true)
    ensures !open ==> ClosedLog(s, log)
  {
    log := [Connected(s.connectOk)];
    if !s.connectOk {
      return false, log;
    }
    var reports;
    open, reports := InstallGate.InstallAllTools(s.tools, s.maxAttempts, s.baseDelay);
    forall i | 0 <= i < |reports|
      ensures reports[i].result.Installed? <==> Installs(s.tools[i], s.maxAttempts)
    {
      InstalledReport(s.tools[i], s.maxAttempts, s.baseDelay, reports[i]);
    }
    hide Installs, InstallGate.Reported;
    log := log + ToolEvents(reports);
  }

  /**
   * The exit code is 0 exactly if the arguments were accepted, the connection and every
   * tool came up, and some flavor went through both passes; and unless the gate opened no
   * flavor action happened at all.
   */
  method RunMain(s: Session) returns (exit: Exit, log: seq<Event>)
    requires s.validation.Accepted? ==> s.job.Valid()
    ensures exit == Code(0) <==> GateOpens(s) && SomeFlavorSucceeds(s.job)
    ensures exit == Crash <==> s.validation.Broken? || (s.validation.Accepted? && !s.setupOk)
    ensures exit.Code? ==> exit.code == 0 || exit.code == 1
    ensures if GateOpens(s) then OpenLog(s, log) else ClosedLog(s, log)
  {
    match s.validation {
      case Rejected =>
        return Code(1), [];
      case Broken =>
        return Crash, [];
      case Accepted =>
    }
    if !s.setupOk {
      return Crash, [];
    }
    var open;
    open, log := OpenGate(s);
    if !open {
      return Code(1), log;
    }
    hide GateOpens, ClosedLog, OpenLog, EndsAs, RunLog, Succeeds, RunEscapes, FlavorEvents, SomeFlavorSucceeds;
    var ended, actions := RunBuildDriver(s.job);
    ExitZeroIff(Turns(s.job), s.job.pass2, ended);
    SuccessIs(s.job);
    ThenTheRun(s, log, actions);
    log := log + FlavorEvents(actions);
    exit := Code(ExitCode(ended));
  }
}
