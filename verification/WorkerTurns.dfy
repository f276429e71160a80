/**
 * What an execution ends with, read off the outcomes of its worker's own turns: for every
 * schedule, whatever else is scheduled in between.
 */
module WorkerTurns {
  import opened Prelude
  import opened ExecutionRecords
  import opened OutputStreams
  import opened Lifecycle
  import opened LifecycleInvariant
  import opened LifecycleTheorems

  /** One step of a worker: what the outside did in it, and its clock reading. */
  datatype Turn = Turn(outcome: Outcome, now: Time)

  /** The turns that a schedule gives to the worker of `id`, from its start. */
  function TurnsTaken(c: Config, s: State, steps: seq<Lifecycle.Step>, id: Id): seq<Turn>
    decreases |steps|
  {
    if steps == [] then [] else TurnIn(s, steps[0], id) + TurnsTaken(c, Apply(c, s, steps[0]), steps[1..], id)
  }

  function TurnIn(s: State, step: Lifecycle.Step, id: Id): seq<Turn> {
    if step.Work? && step.id == id && id in s.phases && HandedOff(s.phases[id]) then [Turn(step.outcome, step.now)]
    else []
  }

  predicate FineAt(t: seq<Turn>, k: nat) {
    k < |t| && t[k].outcome.Fine?
  }

  predicate ExitsAt(t: seq<Turn>, k: nat) {
    k < |t| && t[k].outcome.Exits?
  }

  predicate RaisesAt(t: seq<Turn>, k: nat) {
    k < |t| && t[k].outcome.Raises?
  }

  /** The turn that writes the final status. */
  function WritingTurn(t: seq<Turn>): nat {
    if !FineAt(t, 3) then 5
    else if !FineAt(t, 5) then 7
    else if ExitsAt(t, 6) then 8
    else 9
  }

  function Verdict(t: seq<Turn>): (ExecStatus, int) {
    if !FineAt(t, 3) || !FineAt(t, 5) then (Failed, -1)
    else if ExitsAt(t, 6) then (if t[6].outcome.code == 0 then Completed else Failed, t[6].outcome.code)
    else if RaisesAt(t, 7) then (Failed, -1)
    else (TimedOut, -1)
  }

  /** The container runs: created, tracked and started. */
  predicate Up(t: seq<Turn>) {
    FineAt(t, 3) && FineAt(t, 5)
  }

  predicate StartKept(l: Local, t: seq<Turn>) {
    |t| > 2 && (l.rec.Some? ==> l.rec.value.startedAt == Some(t[2].now))
  }

  /** The history and the record show the verdict, written in the writing turn. */
  predicate Written(l: Local, t: seq<Turn>) {
    && WritingTurn(t) < |t| && |l.trail| == 3 && l.trail[2] == Verdict(t).0
    && (l.rec.Some? ==>
          && l.rec.value.completedAt == Some(t[WritingTurn(t)].now)
          && l.rec.value.exitCode == Some(Verdict(t).1))
  }

  /** What an execution's phase says of the turns its worker has had. */
  predicate Told(l: Local, t: seq<Turn>) {
    match l.phase
    case Created | Attested | Stored | GaveUp | Spawned => t == []
    case Fetched => |t| == 1
    case Buffered => |t| == 2
    case Started => |t| == 3 && StartKept(l, t)
    case ContainerMade => |t| == 4 && FineAt(t, 3) && StartKept(l, t)
    case Tracked => |t| == 5 && FineAt(t, 3) && StartKept(l, t)
    case Waiting => |t| == 6 && Up(t) && StartKept(l, t)
    case Exited(code) => |t| == 7 && Up(t) && t[6].outcome == Exits(code) && StartKept(l, t)
    case WaitFailed => |t| == 7 && Up(t) && !ExitsAt(t, 6) && StartKept(l, t)
    case Stopped => |t| == 8 && Up(t) && !ExitsAt(t, 6) && !RaisesAt(t, 7) && StartKept(l, t)
    case Raised =>
      && StartKept(l, t)
      && ((|t| == 4 && !FineAt(t, 3)) || (|t| == 6 && FineAt(t, 3) && !FineAt(t, 5))
          || (|t| == 8 && Up(t) && !ExitsAt(t, 6) && RaisesAt(t, 7)))
    case Marked(status, code) => |t| == WritingTurn(t) && (status, code) == Verdict(t) && StartKept(l, t)
    case Ending | Done => Written(l, t) && StartKept(l, t)
  }

  // One turn.

  lemma QueuedTurn(l: Local, t: seq<Turn>, u: Turn, maxOutput: nat)
    requires Good(l, maxOutput) && HandedOff(l.phase) && BeforeRun(l.phase) && Told(l, t)
    ensures Told(WorkLocal(l, u.outcome, u.now), t + [u])
  {
    hide BufferGood, ContextGood, DueGood, ContainerGood;
  }

  lemma LaunchTurn(l: Local, t: seq<Turn>, u: Turn)
    requires l.phase.Started? || l.phase.ContainerMade? || l.phase.Tracked?
    requires Told(l, t)
    ensures Told(WorkLocal(l, u.outcome, u.now), t + [u])
  {
  }

  lemma WaitTurn(l: Local, t: seq<Turn>, u: Turn)
    requires l.phase.Waiting? || l.phase.WaitFailed?
    requires Told(l, t)
    ensures Told(WorkLocal(l, u.outcome, u.now), t + [u])
  {
  }

  lemma MarkTurn(l: Local, t: seq<Turn>, u: Turn)
    requires l.phase.Stopped? || l.phase.Exited? || l.phase.Raised?
    requires l.buf.Some? && Told(l, t)
    ensures Told(WorkLocal(l, u.outcome, u.now), t + [u])
  {
    hide OutputStreams.MarkComplete;
  }

  lemma WriteTurn(l: Local, t: seq<Turn>, u: Turn, maxOutput: nat)
    requires Good(l, maxOutput) && l.phase.Marked? && Told(l, t)
    ensures Told(WorkLocal(l, u.outcome, u.now), t + [u])
  {
    hide ContextGood, DueGood, ContainerGood;
    assert WritingTurn(t + [u]) == WritingTurn(t) && Verdict(t + [u]) == Verdict(t);
  }

  lemma LastTurn(l: Local, t: seq<Turn>, u: Turn)
    requires Over(l.phase) && Told(l, t)
    ensures Told(WorkLocal(l, u.outcome, u.now), t + [u])
  {
    assert WritingTurn(t + [u]) == WritingTurn(t) && Verdict(t + [u]) == Verdict(t);
  }

  lemma BufferIsThere(l: Local, maxOutput: nat)
    requires Good(l, maxOutput) && (l.phase.Stopped? || l.phase.Exited? || l.phase.Raised?)
    ensures l.buf.Some?
  {
  }

  lemma TurnTold(l: Local, t: seq<Turn>, u: Turn, maxOutput: nat)
    requires Good(l, maxOutput) && HandedOff(l.phase) && Told(l, t)
    ensures Told(WorkLocal(l, u.outcome, u.now), t + [u])
  {
    hide Good, Told, WorkLocal, HandedOff;
    if BeforeRun(l.phase) {
      QueuedTurn(l, t, u, maxOutput);
    } else if l.phase.Started? || l.phase.ContainerMade? || l.phase.Tracked? {
      LaunchTurn(l, t, u);
    } else if l.phase.Waiting? || l.phase.WaitFailed? {
      WaitTurn(l, t, u);
    } else if l.phase.Marked? {
      WriteTurn(l, t, u, maxOutput);
    } else if Over(l.phase) {
      LastTurn(l, t, u);
    } else {
      BufferIsThere(l, maxOutput);
      MarkTurn(l, t, u);
    }
  }

  // One step.

  /** What the schedule so far says of `id`. */
  ghost predicate Knows(s: State, id: Id, t: seq<Turn>) {
    if id in s.phases then id in s.trail && Told(LocalOf(s, id), t) else t == []
  }

  lemma OwnTurnKnown(c: Config, s: State, id: Id, outcome: Outcome, now: Time, t: seq<Turn>)
    requires Inv(c, s) && Knows(s, id, t) && id in s.phases && HandedOff(s.phases[id])
    ensures Knows(ApplyWork(s, id, outcome, now), id, t + [Turn(outcome, now)])
  {
    hide Inv, Good, Told, WorkLocal, HandedOff, ApplyWork, ContextDue, BufferDue;
    InvKeys(c, s);
    InvAt(c, s, id);
    WorkIsLocal(s, id, outcome, now);
    TurnTold(LocalOf(s, id), t, Turn(outcome, now), c.maxOutput);
  }

  lemma NoTurn(s: State, id: Id, outcome: Outcome, now: Time)
    requires id !in s.phases || !HandedOff(s.phases[id])
    ensures ApplyWork(s, id, outcome, now) == s
  {
  }

  lemma OtherTurnKnown(s: State, w: Id, outcome: Outcome, now: Time, id: Id, t: seq<Turn>)
    requires KeysGood(s) && w != id && Knows(s, id, t)
    ensures Knows(ApplyWork(s, w, outcome, now), id, t)
  {
    hide Told, WorkLocal, ApplyWork, ContextDue, BufferDue;
    if w in s.phases {
      WorkIsLocal(s, w, outcome, now);
    } else {
      NoTurn(s, w, outcome, now);
    }
  }

  /** The other steps change no phase of a worker, and of its record only whether it is there. */
  lemma OtherStepKeeps(c: Config, s: State, step: Lifecycle.Step, id: Id)
    requires !step.Work? && s.trail.Keys == s.phases.Keys
    ensures var t := Apply(c, s, step);
            if id in s.phases then
              && id in t.phases && id in t.trail && t.trail[id] == s.trail[id]
              && (t.phases[id] == s.phases[id]
                  || (!HandedOff(s.phases[id]) && (!HandedOff(t.phases[id]) || t.phases[id].Spawned?)))
              && (id in t.mgr.recs ==> id in s.mgr.recs && t.mgr.recs[id] == s.mgr.recs[id])
            else id in t.phases ==> id in t.trail && t.phases[id].Created?
  {
    hide Capture, HandedOff;
    assert !HandedOff(Created) && !HandedOff(Attested) && !HandedOff(Stored) && !HandedOff(GaveUp) by {
      HandlersOnly();
    }
  }

  lemma HandlersOnly()
    ensures !HandedOff(Created) && !HandedOff(Attested) && !HandedOff(Stored) && !HandedOff(GaveUp)
  {
  }

  lemma OtherStepKnown(c: Config, s: State, step: Lifecycle.Step, id: Id, t: seq<Turn>)
    requires KeysGood(s) && !step.Work? && Knows(s, id, t)
    ensures Knows(Apply(c, s, step), id, t)
  {
    OtherStepKeeps(c, s, step, id);
    hide Apply, ContextDue, BufferDue;
  }

  lemma StepKnown(c: Config, s: State, step: Lifecycle.Step, id: Id, t: seq<Turn>)
    requires Inv(c, s) && Knows(s, id, t)
    ensures Knows(Apply(c, s, step), id, t + TurnIn(s, step, id))
  {
    hide Inv, Knows, ApplyWork, HandedOff;
    assert t + [] == t;
    InvKeys(c, s);
    if !step.Work? {
      OtherStepKnown(c, s, step, id, t);
    } else if step.id != id {
      OtherTurnKnown(s, step.id, step.outcome, step.now, id, t);
    } else if id in s.phases && HandedOff(s.phases[id]) {
      OwnTurnKnown(c, s, id, step.outcome, step.now, t);
    } else {
      NoTurn(s, id, step.outcome, step.now);
    }
  }

  lemma {:induction false} RunKnown(c: Config, s: State, steps: seq<Lifecycle.Step>, id: Id, t: seq<Turn>)
    requires Inv(c, s) && Knows(s, id, t)
    ensures Knows(RunAll(c, s, steps), id, t + TurnsTaken(c, s, steps, id))
    decreases |steps|
  {
    hide Inv, Knows, Apply, TurnIn;
    if steps == [] {
      assert t + [] == t;
    } else {
      var next, turn := Apply(c, s, steps[0]), TurnIn(s, steps[0], id);
      StepKnown(c, s, steps[0], id, t);
      StepKeepsInv(c, s, steps[0]);
      RunKnown(c, next, steps[1..], id, t + turn);
      Assoc(t, turn, TurnsTaken(c, next, steps[1..], id));
    }
  }

  lemma {:induction false} ReachKnown(c: Config, steps: seq<Lifecycle.Step>, id: Id)
    ensures Knows(Reach(c, steps), id, TurnsTaken(c, INITIAL, steps, id))
  {
    InitialInv(c);
    RunKnown(c, INITIAL, steps, id, []);
    assert [] + TurnsTaken(c, INITIAL, steps, id) == TurnsTaken(c, INITIAL, steps, id);
  }

  lemma OverIsWritten(s: State, id: Id, t: seq<Turn>)
    requires Knows(s, id, t) && id in s.phases && Over(s.phases[id])
    ensures |t| > 5 && Written(LocalOf(s, id), t) && StartKept(LocalOf(s, id), t)
  {
  }

  /**
   * For every schedule, once an execution is over: its final status, and its record's exit
   * code and times if the record is still there, by the outcomes and readings of its
   * worker's turns alone. Turn 3 creates the container, turn 5 starts it, turn 6 waits,
   * turn 7 stops it after a failed wait.
   */
  lemma {:induction false} VerdictOfTurns(c: Config, steps: seq<Lifecycle.Step>, id: Id)
    requires id in Reach(c, steps).phases && Over(Reach(c, steps).phases[id])
    ensures var s, t := Reach(c, steps), TurnsTaken(c, INITIAL, steps, id);
            && id in s.trail && |s.trail[id]| == 3 && |t| > 5
            && var up := t[3].outcome.Fine? && t[5].outcome.Fine?;
               && (s.trail[id][2] == Completed <==> up && |t| > 6 && t[6].outcome == Exits(0))
               && (s.trail[id][2] == TimedOut <==>
                     up && |t| > 7 && !t[6].outcome.Exits? && !t[7].outcome.Raises?)
               && (s.trail[id][2] == Completed || s.trail[id][2] == TimedOut || s.trail[id][2] == Failed)
               && (id in s.mgr.recs ==>
                     && s.mgr.recs[id].exitCode
                        == Some(if up && |t| > 6 && t[6].outcome.Exits? then t[6].outcome.code else -1)
                     && s.mgr.recs[id].startedAt == Some(t[2].now)
                     && var k := if !t[3].outcome.Fine? then 5 else if !up then 7
                                 else if |t| > 6 && t[6].outcome.Exits? then 8 else 9;
                        k < |t| && s.mgr.recs[id].completedAt == Some(t[k].now))
  {
    hide Reach, ContextDue, BufferDue;
    ReachKnown(c, steps, id);
    OverIsWritten(Reach(c, steps), id, TurnsTaken(c, INITIAL, steps, id));
    hide Knows, TurnsTaken;
  }

  /**
   * And the cleanup: for every schedule and cutoff, the section under the lock drops a record
   * exactly if its execution is over and the reading of the turn that wrote its final status
   * lies before the cutoff.
   */
  lemma {:induction false} CleanupDropsIff(
      c: Config, steps: seq<Lifecycle.Step>, id: Id, cutoff: Time, expired: seq<Id>, t: seq<Turn>)
    requires id in Reach(c, steps).mgr.recs && t == TurnsTaken(c, INITIAL, steps, id)
    requires Elements(expired) == ExpiredIds(Reach(c, steps).mgr.recs, cutoff)
    ensures id in Reach(c, steps).phases
    ensures id !in ApplyCleanStart(Reach(c, steps), cutoff, expired).mgr.recs
            <==> Over(Reach(c, steps).phases[id]) && WritingTurn(t) < |t| && t[WritingTurn(t)].now < cutoff
    ensures Over(Reach(c, steps).phases[id]) ==>
        |t| > 5 && WritingTurn(t) == if !t[3].outcome.Fine? then 5 else if !t[5].outcome.Fine? then 7
                                     else if |t| > 6 && t[6].outcome.Exits? then 8 else 9
  {
    hide Reach, Inv, ContextDue, BufferDue, Elements, Told, WritingTurn, Verdict;
    var s := Reach(c, steps);
    Reachable(c, steps);
    assert id in s.phases by { InvKeys(c, s); }
    if Over(s.phases[id]) {
      ReachKnown(c, steps, id);
      OverIsWritten(s, id, t);
      WritingTurnIs(t);
      FinishedRecord(c, s, id);
    } else {
      ActiveUntilOver(c, s, id);
    }
  }

  /** Which turn that is. */
  lemma WritingTurnIs(t: seq<Turn>)
    requires |t| > 5
    ensures WritingTurn(t) == if !t[3].outcome.Fine? then 5 else if !t[5].outcome.Fine? then 7
                              else if |t| > 6 && t[6].outcome.Exits? then 8 else 9
  {
  }
}
