/**
 * The toolchain gate in front of the flavor loop: every step is retried on transient
 * failures only, with doubling delays, and the steps run in order.
 */
module InstallGate {
  import opened Prelude

  /** How one run of a step ends: a `TransientInstallError`, or any other exception. */
  datatype Outcome = Done | Transient | Fatal

  datatype StepResult = Installed | Exhausted | FailedFast

  /** What one step left behind: its result, its runs, the seconds slept between them. */
  datatype StepReport = StepReport(result: StepResult, runs: nat, slept: int)

  function Power2(n: nat): nat {
    if n == 0 then 1 else 2 * Power2(n - 1)
  }

  /** The delays of the first `n` retries, one after each failed run. */
  function DelaySum(base: int, n: nat): int {
    if n == 0 then 0 else DelaySum(base, n - 1) + base * Power2(n - 1)
  }

  lemma {:induction false} DelaySumClosedForm(base: int, n: nat)
    ensures DelaySum(base, n) == base * (Power2(n) - 1)
  {
    if n > 0 {
      DelaySumClosedForm(base, n - 1);
      var p: int := Power2(n - 1);
      assert base * (p - 1) + base * p == base * (2 * p - 1);
    }
  }

  /** The facts about a report that the gate relies on; `outcome(k)` is how run number `k` would end. */
  ghost predicate Reported(outcome: nat -> Outcome, maxAttempts: int, base: int, r: StepReport) {
    if maxAttempts < 1 then r == StepReport(Installed, 0, 0)
    else
      && 1 <= r.runs <= maxAttempts
      && (forall k: nat :: 1 <= k < r.runs ==> outcome(k) == Transient)
      && r.slept == base * (Power2(r.runs - 1) - 1)
      && (r.result == Installed <==> outcome(r.runs) == Done)
      && (r.result == FailedFast <==> outcome(r.runs) == Fatal)
      && (r.result == Exhausted <==> outcome(r.runs) == Transient)
      && (r.result == Exhausted ==> r.runs == maxAttempts)
  }

  /** With no attempt allowed the source falls through its loop and returns normally. */
  method RunInstallStep(outcome: nat -> Outcome, maxAttempts: int, baseDelay: int) returns (r: StepReport)
    ensures Reported(outcome, maxAttempts, baseDelay, r)
  {
    var slept := 0;
    var attempt := 1;
    while attempt <= maxAttempts
      invariant 1 <= attempt
      invariant attempt <= maxAttempts || (attempt == 1 && maxAttempts < 1)
      invariant forall k: nat :: 1 <= k < attempt ==> outcome(k) == Transient
      invariant slept == DelaySum(baseDelay, attempt - 1)
      decreases maxAttempts - attempt
    {
      DelaySumClosedForm(baseDelay, attempt - 1);
      match outcome(attempt) {
        case Done =>
          return StepReport(Installed, attempt, slept);
        case Fatal =>
          return StepReport(FailedFast, attempt, slept);
        case Transient =>
          if attempt >= maxAttempts {
            return StepReport(Exhausted, attempt, slept);
          }
          slept := slept + baseDelay * Power2(attempt - 1);
          attempt := attempt + 1;
      }
    }
    return StepReport(Installed, 0, 0);
  }

  /** A report with those facts is the only one: the first run that did not fail transiently decides. */
  lemma ReportUnique(outcome: nat -> Outcome, maxAttempts: int, base: int, a: StepReport, b: StepReport)
    requires Reported(outcome, maxAttempts, base, a) && Reported(outcome, maxAttempts, base, b)
    ensures a == b
  {
  }

  /** The step succeeds exactly when one of the allowed runs ends well after only transient failures. */
  lemma InstalledIff(outcome: nat -> Outcome, maxAttempts: int, base: int, r: StepReport)
    requires Reported(outcome, maxAttempts, base, r) && maxAttempts >= 1
    ensures r.result == Installed <==>
        exists n: nat :: 1 <= n <= maxAttempts && outcome(n) == Done
                         && forall k: nat :: 1 <= k < n ==> outcome(k) == Transient
  {
  }

  /**
   * `install_all_tools`: the reports of the steps that ran, in order. The gate opens iff all
   * steps ran and were installed; after a failed step none runs.
   */
  method InstallAllTools(steps: seq<nat -> Outcome>, maxAttempts: int, baseDelay: int)
    returns (open: bool, reports: seq<StepReport>)
    ensures |reports| <= |steps|
    ensures forall i :: 0 <= i < |reports| ==> Reported(steps[i], maxAttempts, baseDelay, reports[i])
    ensures forall i :: 0 <= i < |reports| - 1 ==> reports[i].result == Installed
    ensures open <==> |reports| == |steps| && forall i :: 0 <= i < |reports| ==> reports[i].result == Installed
    ensures !open ==> reports != [] && reports[|reports| - 1].result != Installed
  {
    reports := [];
    for i := 0 to |steps|
      invariant |reports| == i
      invariant forall j :: 0 <= j < i ==> Reported(steps[j], maxAttempts, baseDelay, reports[j])
      invariant forall j :: 0 <= j < i ==> reports[j].result == Installed
    {
      var r := RunInstallStep(steps[i], maxAttempts, baseDelay);
      reports := reports + [r];
      if r.result != Installed {
        return false, reports;
      }
    }
    return true, reports;
  }
}
