/** The lifecycle's promises, for every schedule of every number of executions and cleanups. */
module LifecycleTheorems {
  import opened Prelude
  import opened ExecutionRecords
  import opened OutputStreams
  import opened Lifecycle
  import opened LifecycleInvariant

  /** The state after a schedule. */
  function Reach(c: Config, steps: seq<Lifecycle.Step>): State {
    RunAll(c, INITIAL, steps)
  }

  lemma Reachable(c: Config, steps: seq<Lifecycle.Step>)
    ensures Inv(c, Reach(c, steps))
  {
    InitialInv(c);
    RunKeepsInv(c, INITIAL, steps);
  }

  lemma RecordAt(c: Config, s: State, id: Id)
    requires Inv(c, s) && id in s.phases
    ensures id in s.trail
    ensures RecordGood(LocalOf(s, id))
    ensures LocalOf(s, id).rec == if id in s.mgr.recs then Some(s.mgr.recs[id]) else None
  {
    hide Inv, RecordGood, BufferGood, ContextGood, DueGood, ContainerGood, ContextDue, BufferDue;
    InvAt(c, s, id);
  }

  lemma QueuedRecord(c: Config, s: State, id: Id)
    requires Inv(c, s) && id in s.phases && BeforeRun(s.phases[id])
    ensures id in s.trail && s.trail[id] == [Queued] && id in s.mgr.recs && s.mgr.recs[id] == NEW
  {
    hide Inv;
    RecordAt(c, s, id);
  }

  lemma RunningRecord(c: Config, s: State, id: Id)
    requires Inv(c, s) && id in s.phases && InRun(s.phases[id])
    ensures id in s.trail && s.trail[id] == [Queued, Running] && id in s.mgr.recs && s.mgr.recs[id].status == Running
  {
    hide Inv;
    RecordAt(c, s, id);
  }

  lemma FinishedRecord(c: Config, s: State, id: Id)
    requires Inv(c, s) && id in s.phases && Over(s.phases[id])
    ensures && id in s.trail && |s.trail[id]| == 3 && s.trail[id][..2] == [Queued, Running] && s.trail[id][2].Terminal()
            && (id in s.mgr.recs ==> s.mgr.recs[id].status == s.trail[id][2])
  {
    hide Inv;
    RecordAt(c, s, id);
  }

  lemma ThreeStatuses(trail: seq<ExecStatus>)
    requires |trail| == 3 && trail[..2] == [Queued, Running] && trail[2].Terminal()
    ensures Completed in trail <==> trail[2] == Completed
    ensures Failed in trail || TimedOut in trail <==> trail[2] != Completed
  {
  }

  lemma ActiveUntilOver(c: Config, s: State, id: Id)
    requires Inv(c, s) && id in s.phases && !Over(s.phases[id])
    ensures id in ActiveIds(s.mgr.recs) && id !in EverCompleted(s.trail) && id !in EverFailed(s.trail)
  {
    hide Inv, BeforeRun;
    if BeforeRun(s.phases[id]) {
      QueuedRecord(c, s, id);
    } else {
      RunningRecord(c, s, id);
    }
    assert forall x :: x in s.trail[id] ==> x == Queued || x == Running;
  }

  lemma FinishedWhenOver(c: Config, s: State, id: Id)
    requires Inv(c, s) && id in s.phases && Over(s.phases[id])
    ensures id !in ActiveIds(s.mgr.recs) && |s.trail[id]| == 3
    ensures if s.trail[id][2] == Completed then id in EverCompleted(s.trail) && id !in EverFailed(s.trail)
            else id in EverFailed(s.trail) && id !in EverCompleted(s.trail)
  {
    hide Inv, Over;
    FinishedRecord(c, s, id);
    ThreeStatuses(s.trail[id]);
  }

  /** Every execution is active or has finished in exactly one way. */
  lemma Partition(c: Config, s: State)
    requires Inv(c, s)
    ensures s.trail.Keys == ActiveIds(s.mgr.recs) + EverCompleted(s.trail) + EverFailed(s.trail)
    ensures ActiveIds(s.mgr.recs) !! EverCompleted(s.trail) !! EverFailed(s.trail)
  {
    hide Inv, Over, ContextDue, BufferDue;
    InvKeys(c, s);
    forall id | id in s.phases
      ensures id in ActiveIds(s.mgr.recs) <==> !Over(s.phases[id])
      ensures id in EverCompleted(s.trail) ==> Over(s.phases[id]) && id !in EverFailed(s.trail)
      ensures id in EverFailed(s.trail) ==> Over(s.phases[id])
      ensures Over(s.phases[id]) ==> id in EverCompleted(s.trail) || id in EverFailed(s.trail)
    {
      if Over(s.phases[id]) {
        FinishedWhenOver(c, s, id);
      } else {
        ActiveUntilOver(c, s, id);
      }
    }
  }

  /**
   * The metrics are conserved: what was created is active, successful or failed. The stored
   * durations are as many as the finished executions, up to the limit, and the active
   * records never exceed the configured maximum.
   */
  lemma MetricsConserved(c: Config, steps: seq<Lifecycle.Step>)
    ensures var m := Reach(c, steps).mgr;
            && m.total == |ActiveIds(m.recs)| + m.ok + m.failed
            && |m.durations| == (if m.ok + m.failed < MAX_DURATIONS then m.ok + m.failed else MAX_DURATIONS)
            && |ActiveIds(m.recs)| <= c.maxConcurrent
  {
    var s := Reach(c, steps);
    Reachable(c, steps);
    Partition(c, s);
    ThreeParts(ActiveIds(s.mgr.recs), EverCompleted(s.trail), EverFailed(s.trail));
    assert |s.trail| == |s.trail.Keys|;
  }

  lemma ThreeParts(a: set<Id>, b: set<Id>, d: set<Id>)
    requires a !! b !! d
    ensures |a + b + d| == |a| + |b| + |d|
  {
  }

  /** Every execution goes from queued to running to one terminal status, and its record shows the last one. */
  lemma StatusesInOrder(c: Config, steps: seq<Lifecycle.Step>, id: Id)
    requires id in Reach(c, steps).phases
    ensures var s := Reach(c, steps);
            && id in s.trail
            && (s.trail[id] == [Queued] || s.trail[id] == [Queued, Running]
                || (|s.trail[id]| == 3 && s.trail[id][..2] == [Queued, Running] && s.trail[id][2].Terminal()))
            && (id in s.mgr.recs ==> s.mgr.recs[id].status == s.trail[id][|s.trail[id]| - 1])
            && (s.phases[id].Done? ==> |s.trail[id]| == 3)
  {
    hide Inv, Reach;
    var s := Reach(c, steps);
    Reachable(c, steps);
    if BeforeRun(s.phases[id]) {
      QueuedRecord(c, s, id);
    } else if Over(s.phases[id]) {
      FinishedRecord(c, s, id);
    } else {
      RunningRecord(c, s, id);
    }
  }

  lemma StepExtendsTrail(c: Config, s: State, step: Lifecycle.Step, id: Id)
    requires id in s.trail && s.trail.Keys == s.phases.Keys
    ensures id in Apply(c, s, step).trail && s.trail[id] <= Apply(c, s, step).trail[id]
  {
    if step.Work? {
      WorkExtendsTrail(s, step.id, step.outcome, step.now, id);
    } else if !step.Create? {
      OtherStepsKeepTrail(c, s, step);
    }
  }

  lemma OtherStepsKeepTrail(c: Config, s: State, step: Lifecycle.Step)
    requires !step.Create? && !step.Work?
    ensures Apply(c, s, step).trail == s.trail
  {
  }

  lemma WorkExtendsTrail(s: State, w: Id, outcome: Outcome, now: Time, id: Id)
    requires id in s.trail
    ensures id in ApplyWork(s, w, outcome, now).trail && s.trail[id] <= ApplyWork(s, w, outcome, now).trail[id]
  {
  }

  /** A status once given stays in the history: executions never go back. */
  lemma {:induction false} StatusesOnlyAdvance(c: Config, s: State, steps: seq<Lifecycle.Step>, id: Id)
    requires Inv(c, s) && id in s.trail
    ensures id in RunAll(c, s, steps).trail && s.trail[id] <= RunAll(c, s, steps).trail[id]
    decreases |steps|
  {
    if steps != [] {
      var t := Apply(c, s, steps[0]);
      StepExtendsTrail(c, s, steps[0], id);
      StepKeepsInv(c, s, steps[0]);
      StatusesOnlyAdvance(c, t, steps[1..], id);
    }
  }

  lemma TerminalLocal(l: Local, maxOutput: nat)
    requires Good(l, maxOutput) && l.rec.Some? && l.rec.value.status.Terminal()
    ensures l.buf.Some? && l.context && l.buf.value.complete && l.buf.value.Size() <= maxOutput
    ensures var r := l.rec.value;
            && r.exitCode.Some? && r.completedAt.Some? && l.buf.value.exitCode == r.exitCode
            && (r.status == Completed <==> r.exitCode == Some(0))
            && (r.status == TimedOut ==> r.exitCode == Some(-1))
  {
  }

  /**
   * A terminal record has its buffer and its context; the buffer is complete, carries the
   * record's exit code and is within the budget; the status is Completed iff that code is 0.
   */
  lemma TerminalRecordsAreConsistent(c: Config, steps: seq<Lifecycle.Step>, id: Id)
    requires var s := Reach(c, steps); id in s.mgr.recs && s.mgr.recs[id].status.Terminal()
    ensures var s := Reach(c, steps);
            var r := s.mgr.recs[id];
            && id in s.bufs && id in s.contexts
            && r.exitCode.Some? && r.completedAt.Some?
            && s.bufs[id].complete && s.bufs[id].exitCode == r.exitCode && s.bufs[id].Size() <= c.maxOutput
            && (r.status == Completed <==> r.exitCode == Some(0))
            && (r.status == TimedOut ==> r.exitCode == Some(-1))
  {
    hide Inv, Reach, Good, ContextDue, BufferDue;
    var s := Reach(c, steps);
    Reachable(c, steps);
    assert id in s.phases by { InvKeys(c, s); }
    InvAt(c, s, id);
    TerminalLocal(LocalOf(s, id), c.maxOutput);
  }

  /** Buffers and contexts belong to a live record or are on the list of a running cleanup. */
  lemma NoOrphans(c: Config, steps: seq<Lifecycle.Step>, id: Id)
    ensures var s := Reach(c, steps);
            && (id in s.contexts ==> id in s.mgr.recs || ContextDue(s.cleanups, id))
            && (id in s.bufs ==> id in s.mgr.recs || BufferDue(s.cleanups, id))
            && (id in s.containers ==> id in s.phases && !BeforeRun(s.phases[id]) && !s.phases[id].Done?)
  {
    hide Inv, Reach, RecordGood, BufferGood, ContextGood, ContextDue, BufferDue;
    var s := Reach(c, steps);
    Reachable(c, steps);
    InvKeys(c, s);
    if id in s.phases {
      InvAt(c, s, id);
    }
  }

  /** No cleanup step takes the context or the buffer of an execution whose record is still there, */
  lemma CleanupSparesLiveRecords(c: Config, steps: seq<Lifecycle.Step>, k: nat, id: Id)
    requires id in Reach(c, steps).mgr.recs
    ensures var s := Reach(c, steps);
            var t := ApplyCleanNext(s, k);
            && id in t.mgr.recs
            && (id in t.contexts <==> id in s.contexts) && (id in t.bufs <==> id in s.bufs)
  {
    var s := Reach(c, steps);
    Reachable(c, steps);
    assert DueGood(LocalOf(s, id));
    if k < |s.cleanups| {
      var q := s.cleanups[k];
      assert q.contexts != [] ==> ContextDue(s.cleanups, q.contexts[0]);
      assert q.buffers != [] ==> BufferDue(s.cleanups, q.buffers[0]);
    }
  }

  /** and none removes the record of an execution that is not over. */
  lemma CleanupSparesActive(c: Config, steps: seq<Lifecycle.Step>, cutoff: Time, expired: seq<Id>, id: Id)
    requires id in Reach(c, steps).phases && !Over(Reach(c, steps).phases[id])
    ensures id in Reach(c, steps).mgr.recs
    ensures id in ApplyCleanStart(Reach(c, steps), cutoff, expired).mgr.recs
  {
    hide Inv, Reach;
    var s := Reach(c, steps);
    Reachable(c, steps);
    ActiveUntilOver(c, s, id);
  }

  predicate HandedOff(p: Phase) {
    !p.Created? && !p.Attested? && !p.Stored? && !p.GaveUp?
  }

  /**
   * A worker finds its record, and its buffer when it marks it complete; the client's context
   * is there to answer polls.
   */
  lemma WorkerFindsItsTables(c: Config, steps: seq<Lifecycle.Step>, id: Id)
    requires var s := Reach(c, steps); id in s.phases && HandedOff(s.phases[id]) && !Over(s.phases[id])
    ensures var s := Reach(c, steps);
            && id in s.mgr.recs && id in s.contexts
            && (!BeforeRun(s.phases[id]) ==> id in s.bufs)
  {
    hide Inv, Reach, DueGood, ContainerGood, ContextDue, BufferDue;
    var s := Reach(c, steps);
    Reachable(c, steps);
    InvAt(c, s, id);
  }

  // Termination of workers.

  function Rank(p: Phase): nat {
    match p
    case Spawned => 12
    case Fetched => 11
    case Buffered => 10
    case Started => 9
    case ContainerMade => 8
    case Tracked => 7
    case Waiting => 6
    case WaitFailed => 5
    case Stopped => 4
    case Exited(_) => 4
    case Raised => 3
    case Marked(_, _) => 2
    case Ending => 1
    case _ => 0
  }

  /** The steps that the scheduler gives to one worker. */
  function TurnsOf(steps: seq<Lifecycle.Step>, id: Id): nat {
    if steps == [] then 0
    else (if steps[0].Work? && steps[0].id == id then 1 else 0) + TurnsOf(steps[1..], id)
  }

  lemma RankedIsHandedOff(p: Phase)
    requires Rank(p) > 0
    ensures HandedOff(p)
  {
  }

  lemma QueuedAdvances(l: Local, outcome: Outcome, now: Time)
    requires HandedOff(l.phase) && BeforeRun(l.phase)
    ensures 0 < Rank(WorkLocal(l, outcome, now).phase) < Rank(l.phase)
  {
    hide SetLocal, MarkLocal;
  }

  lemma RunningAdvances(l: Local, outcome: Outcome, now: Time)
    requires InRun(l.phase)
    ensures 0 < Rank(WorkLocal(l, outcome, now).phase) < Rank(l.phase)
  {
    hide SetLocal, MarkLocal;
  }

  lemma OverAdvances(l: Local, outcome: Outcome, now: Time)
    requires Over(l.phase)
    ensures var p := WorkLocal(l, outcome, now).phase; HandedOff(p) && p.Done?
    ensures l.phase.Done? || Rank(WorkLocal(l, outcome, now).phase) < Rank(l.phase)
  {
  }

  lemma LocalAdvances(l: Local, outcome: Outcome, now: Time)
    requires HandedOff(l.phase)
    ensures var p := WorkLocal(l, outcome, now).phase;
            HandedOff(p) && if l.phase.Done? then p.Done? else Rank(p) < Rank(l.phase)
  {
    hide WorkLocal, Rank, HandedOff;
    if Over(l.phase) {
      OverAdvances(l, outcome, now);
    } else if BeforeRun(l.phase) {
      QueuedAdvances(l, outcome, now);
      RankedIsHandedOff(WorkLocal(l, outcome, now).phase);
    } else {
      RunningAdvances(l, outcome, now);
      RankedIsHandedOff(WorkLocal(l, outcome, now).phase);
    }
  }

  lemma WorkAdvances(s: State, id: Id, outcome: Outcome, now: Time)
    requires KeysGood(s) && id in s.phases && HandedOff(s.phases[id])
    ensures var t := ApplyWork(s, id, outcome, now);
            id in t.phases && HandedOff(t.phases[id])
            && if s.phases[id].Done? then t.phases[id].Done? else Rank(t.phases[id]) < Rank(s.phases[id])
  {
    hide ApplyWork, WorkLocal, Rank, HandedOff;
    WorkIsLocal(s, id, outcome, now);
    LocalAdvances(LocalOf(s, id), outcome, now);
  }

  lemma OtherWorkWaits(s: State, w: Id, outcome: Outcome, now: Time, id: Id)
    requires KeysGood(s) && id in s.phases && w != id
    ensures var t := ApplyWork(s, w, outcome, now); id in t.phases && t.phases[id] == s.phases[id]
  {
    if w in s.phases {
      WorkIsLocal(s, w, outcome, now);
      assert LocalOf(ApplyWork(s, w, outcome, now), id) == LocalOf(s, id);
    }
  }

  lemma OtherStepsWait(c: Config, s: State, step: Lifecycle.Step, id: Id)
    requires id in s.phases && (HandedOff(s.phases[id]) || s.phases[id].GaveUp?) && !step.Work?
    ensures id in Apply(c, s, step).phases && Apply(c, s, step).phases[id] == s.phases[id]
  {
  }

  lemma StepTowardsDone(c: Config, s: State, step: Lifecycle.Step, id: Id)
    requires KeysGood(s) && id in s.phases && HandedOff(s.phases[id])
    ensures var t := Apply(c, s, step);
            && id in t.phases && HandedOff(t.phases[id])
            && Rank(t.phases[id]) <= Rank(s.phases[id])
            && (step.Work? && step.id == id ==> Rank(t.phases[id]) < Rank(s.phases[id]) || Rank(t.phases[id]) == 0)
  {
    if step.Work? && step.id == id {
      WorkAdvances(s, id, step.outcome, step.now);
    } else if step.Work? {
      OtherWorkWaits(s, step.id, step.outcome, step.now, id);
    } else {
      OtherStepsWait(c, s, step, id);
    }
  }

  lemma NoTurnsLeft(p: Phase)
    requires HandedOff(p) && Rank(p) == 0
    ensures p.Done?
  {
  }

  /**
   * Whatever else is scheduled and whatever goes wrong outside, a worker that gets as many
   * turns as its phase needs (at most 12) is done, with exactly one terminal status.
   */
  lemma {:induction false} WorkerFinishes(c: Config, s: State, steps: seq<Lifecycle.Step>, id: Id)
    requires Inv(c, s) && id in s.phases && HandedOff(s.phases[id])
    requires TurnsOf(steps, id) >= Rank(s.phases[id])
    ensures var t := RunAll(c, s, steps);
            id in t.phases && t.phases[id].Done? && id in t.trail && |t.trail[id]| == 3 && t.trail[id][2].Terminal()
    decreases |steps|
  {
    hide Inv, Apply, Rank, HandedOff, BeforeRun;
    if steps == [] {
      NoTurnsLeft(s.phases[id]);
      FinishedRecord(c, s, id);
    } else {
      assert KeysGood(s) by { InvKeys(c, s); }
      StepKeepsInv(c, s, steps[0]);
      StepTowardsDone(c, s, steps[0], id);
      WorkerFinishes(c, Apply(c, s, steps[0]), steps[1..], id);
    }
  }

  // Executions that were never handed off.

  /**
   * An execution accepted by `try_create_execution` whose handler then fails stays queued
   * for good: no later step gives it a status or removes it, so it keeps its slot.
   */
  lemma {:induction false} GivenUpStaysQueued(c: Config, s: State, steps: seq<Lifecycle.Step>, id: Id)
    requires Inv(c, s) && At(s, id, GaveUp)
    ensures At(RunAll(c, s, steps), id, GaveUp) && id in ActiveIds(RunAll(c, s, steps).mgr.recs)
    decreases |steps|
  {
    hide Inv;
    if steps == [] {
      ActiveUntilOver(c, s, id);
    } else {
      var step := steps[0];
      InvKeys(c, s);
      StepKeepsInv(c, s, step);
      if step.Work? && step.id == id {
        assert ApplyWork(s, id, step.outcome, step.now) == s;
      } else if step.Work? {
        OtherWorkWaits(s, step.id, step.outcome, step.now, id);
      } else {
        OtherStepsWait(c, s, step, id);
      }
      GivenUpStaysQueued(c, Apply(c, s, step), steps[1..], id);
    }
  }

  // A cleanup that runs to its end.

  function CleanSteps(k: nat, n: nat): seq<Lifecycle.Step> {
    if n == 0 then [] else [CleanNext(k)] + CleanSteps(k, n - 1)
  }

  /** The state once cleanup `k` has nothing left to remove. */
  function Drained(s: State, k: nat): State
    requires k < |s.cleanups|
  {
    var q := s.cleanups[k];
    s.(contexts := s.contexts - Elements(q.contexts), bufs := s.bufs - Elements(q.buffers),
       cleanups := s.cleanups[k := Cleaning([], [])])
  }

  lemma DrainedAlready(s: State, k: nat)
    requires k < |s.cleanups| && s.cleanups[k] == Cleaning([], [])
    ensures Drained(s, k) == s
  {
    assert Elements([]) == {};
    assert s.cleanups[k := Cleaning([], [])] == s.cleanups;
    assert s.contexts - {} == s.contexts && s.bufs - {} == s.bufs;
  }

  lemma DrainedLater(s: State, k: nat)
    requires k < |s.cleanups| && s.cleanups[k] != Cleaning([], [])
    ensures var t := ApplyCleanNext(s, k);
            && |t.cleanups| == |s.cleanups| && Drained(t, k) == Drained(s, k)
            && |t.cleanups[k].contexts| + |t.cleanups[k].buffers| + 1
               == |s.cleanups[k].contexts| + |s.cleanups[k].buffers|
  {
    var q, t := s.cleanups[k], ApplyCleanNext(s, k);
    assert t.cleanups[k := Cleaning([], [])] == s.cleanups[k := Cleaning([], [])];
    if q.contexts != [] {
      ElementsSplit(q.contexts);
      assert s.contexts - {q.contexts[0]} - Elements(q.contexts[1..]) == s.contexts - Elements(q.contexts);
    } else {
      ElementsSplit(q.buffers);
      assert s.bufs - {q.buffers[0]} - Elements(q.buffers[1..]) == s.bufs - Elements(q.buffers);
    }
  }

  lemma {:induction false} CleanupDrains(c: Config, s: State, k: nat, n: nat)
    requires k < |s.cleanups| && n == |s.cleanups[k].contexts| + |s.cleanups[k].buffers|
    ensures RunAll(c, s, CleanSteps(k, n)) == Drained(s, k)
    decreases n
  {
    hide Drained, ApplyCleanNext;
    if n == 0 {
      DrainedAlready(s, k);
    } else {
      assert CleanSteps(k, n)[1..] == CleanSteps(k, n - 1);
      DrainedLater(s, k);
      CleanupDrains(c, ApplyCleanNext(s, k), k, n - 1);
    }
  }

  lemma ElementsSplit(ids: seq<Id>)
    requires ids != []
    ensures Elements(ids) == {ids[0]} + Elements(ids[1..])
  {
  }

  /**
   * One cleanup with nothing in between removes exactly the expired records, their contexts
   * and their buffers: what `cleanup_expired` promises its caller.
   */
  lemma {:induction false} CleanupAlone(c: Config, s: State, cutoff: Time, expired: seq<Id>)
    requires Elements(expired) == ExpiredIds(s.mgr.recs, cutoff)
    ensures var gone := ExpiredIds(s.mgr.recs, cutoff);
            var t := RunAll(c, ApplyCleanStart(s, cutoff, expired), CleanSteps(|s.cleanups|, 2 * |expired|));
            && t.mgr == DropExpired(s.mgr, cutoff)
            && t.contexts == s.contexts - gone && t.bufs == s.bufs - gone && t.phases == s.phases
            && (forall id :: id in s.mgr.recs ==>
                  var r := s.mgr.recs[id];
                  id !in t.mgr.recs <==>
                    (r.status == Completed || r.status == Failed || r.status == TimedOut)
                    && r.completedAt.Some? && r.completedAt.value < cutoff)
  {
    CleanupDrains(c, ApplyCleanStart(s, cutoff, expired), |s.cleanups|, 2 * |expired|);
  }
}
