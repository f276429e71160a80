/** The clone of the repository that each execution works on, and who removes it. */
module Clones {
  import opened Prelude
  import opened ExecutionRecords
  import opened Lifecycle
  import opened LifecycleInvariant
  import opened LifecycleTheorems

  /** What a step does to the clone of one execution. */
  datatype Fate = Untouched | Removed | Leaked

  /**
   * The handler's `finally` runs the removal of the clone if the execution was not handed off, the
   * worker's `finally` after its container; when removing the container raises anything but
   * an API error, that line is not reached.
   */
  function FateBy(s: State, step: Lifecycle.Step, id: Id): Fate {
    match step
    case Attest(i, ok) => if i == id && At(s, id, Created) && !ok then Removed else Untouched
    case HandOff(i, ok) => if i == id && At(s, id, Stored) && !ok then Removed else Untouched
    case Work(i, outcome, _) =>
      if i != id || !At(s, id, Ending) then Untouched
      else if outcome.Raises? && id in s.containers then Leaked else Removed
    case _ => Untouched
  }

  /** How often a schedule does this to the clone. */
  function Count(c: Config, s: State, steps: seq<Lifecycle.Step>, id: Id, fate: Fate): nat
    decreases |steps|
  {
    if steps == [] then 0
    else (if FateBy(s, steps[0], id) == fate then 1 else 0) + Count(c, Apply(c, s, steps[0]), steps[1..], id, fate)
  }

  /** The execution's owner has left: its handler gave it up, or its worker is done. */
  predicate Left(s: State, id: Id) {
    id in s.phases && (s.phases[id].GaveUp? || s.phases[id].Done?)
  }

  lemma OwnWorkLeaves(s: State, id: Id, outcome: Outcome, now: Time)
    requires id in s.phases
    ensures Left(ApplyWork(s, id, outcome, now), id) <==> Left(s, id) || s.phases[id].Ending?
  {
  }

  lemma OtherWorkKeepsOwner(s: State, w: Id, outcome: Outcome, now: Time, id: Id)
    requires KeysGood(s) && w != id
    ensures Left(ApplyWork(s, w, outcome, now), id) <==> Left(s, id)
  {
    hide ApplyWork, WorkLocal;
    if id in s.phases {
      OtherWorkWaits(s, w, outcome, now, id);
    } else if w in s.phases {
      WorkIsLocal(s, w, outcome, now);
      hide KeysGood, LocalOf;
    } else {
      NoSuchWorker(s, w, outcome, now);
    }
  }

  lemma NoSuchWorker(s: State, w: Id, outcome: Outcome, now: Time)
    requires w !in s.phases
    ensures ApplyWork(s, w, outcome, now) == s
  {
  }

  lemma HandlersLeave(c: Config, s: State, step: Lifecycle.Step, id: Id)
    requires !step.Work?
    ensures FateBy(s, step, id) != Untouched ==> !Left(s, id) && Left(Apply(c, s, step), id)
    ensures FateBy(s, step, id) == Untouched ==> (Left(Apply(c, s, step), id) <==> Left(s, id))
  {
  }

  /** A step that removes or leaks the clone is the one with which the owner leaves. */
  lemma StepLeaves(c: Config, s: State, step: Lifecycle.Step, id: Id)
    requires KeysGood(s)
    ensures FateBy(s, step, id) != Untouched ==> !Left(s, id) && Left(Apply(c, s, step), id)
    ensures FateBy(s, step, id) == Untouched ==> (Left(Apply(c, s, step), id) <==> Left(s, id))
  {
    hide ApplyWork;
    if !step.Work? {
      HandlersLeave(c, s, step, id);
    } else if step.id != id {
      OtherWorkKeepsOwner(s, step.id, step.outcome, step.now, id);
    } else if id in s.phases {
      OwnWorkLeaves(s, id, step.outcome, step.now);
    } else {
      NoSuchWorker(s, id, step.outcome, step.now);
    }
  }

  lemma {:induction false} CountsOfRun(c: Config, s: State, steps: seq<Lifecycle.Step>, id: Id)
    requires Inv(c, s)
    ensures Count(c, s, steps, id, Removed) + Count(c, s, steps, id, Leaked) + (if Left(s, id) then 1 else 0)
            == if Left(RunAll(c, s, steps), id) then 1 else 0
    decreases |steps|
  {
    hide Inv, Apply, FateBy, Left;
    if steps != [] {
      InvKeys(c, s);
      StepLeaves(c, s, steps[0], id);
      StepKeepsInv(c, s, steps[0]);
      CountsOfRun(c, Apply(c, s, steps[0]), steps[1..], id);
    }
  }

  /**
   * For every schedule: while the execution has an owner its clone is left alone, and once
   * the owner has left its removal was run or skipped, exactly once in all.
   */
  lemma {:induction false} CloneLeavesOnce(c: Config, steps: seq<Lifecycle.Step>, id: Id)
    ensures Count(c, INITIAL, steps, id, Removed) + Count(c, INITIAL, steps, id, Leaked)
            == if Left(Reach(c, steps), id) then 1 else 0
  {
    InitialInv(c);
    CountsOfRun(c, INITIAL, steps, id);
  }
}
