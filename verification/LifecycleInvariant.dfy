/** What every interleaving of handlers, workers, log threads and cleanups keeps true. */
module LifecycleInvariant {
  import opened Prelude
  import opened ExecutionRecords
  import opened OutputStreams
  import opened Lifecycle

  // One execution.

  /** Everything the shared tables hold about one id. */
  datatype Local = Local(
    phase: Phase, trail: seq<ExecStatus>, rec: Option<Rec>, buf: Option<Buffer>, context: bool, container: bool,
    contextDue: bool, bufferDue: bool)

  predicate BeforeRun(p: Phase) {
    p.Created? || p.Attested? || p.Stored? || p.GaveUp? || p.Spawned? || p.Fetched? || p.Buffered?
  }

  predicate Over(p: Phase) {
    p.Ending? || p.Done?
  }

  predicate InRun(p: Phase) {
    !BeforeRun(p) && !Over(p)
  }

  /** A final status and an exit code that belong together. */
  predicate Agree(status: ExecStatus, code: int) {
    status.Terminal() && (status == Completed <==> code == 0) && (status == TimedOut ==> code == -1)
  }

  predicate RecordGood(l: Local) {
    if BeforeRun(l.phase) then l.trail == [Queued] && l.rec == Some(NEW)
    else if InRun(l.phase) then
      && l.trail == [Queued, Running]
      && l.rec.Some? && l.rec.value.startedAt.Some? && l.rec.value == Rec(Running, l.rec.value.startedAt, None, None)
    else
      && |l.trail| == 3 && l.trail[0] == Queued && l.trail[1] == Running && l.trail[2].Terminal()
      && (l.rec.Some? ==>
            var r := l.rec.value;
            r.status == l.trail[2] && r.completedAt.Some? && r.exitCode.Some? && Agree(r.status, r.exitCode.value))
  }

  predicate BufferGood(l: Local, maxOutput: nat) {
    && (l.buf.Some? ==> l.buf.value.Size() <= maxOutput)
    && match l.phase
       case Created | Attested | Stored | GaveUp | Spawned | Fetched => l.buf.None?
       case Marked(status, code) =>
         Agree(status, code) && l.buf.Some? && l.buf.value.complete && l.buf.value.exitCode == Some(code)
       case Ending | Done =>
         && (l.buf.Some? ==>
               l.buf.value.complete && l.buf.value.exitCode.Some? && |l.trail| == 3
               && Agree(l.trail[2], l.buf.value.exitCode.value))
         && (l.rec.Some? ==> l.buf.Some? && l.buf.value.exitCode == l.rec.value.exitCode)
       case _ => l.buf.Some? && !l.buf.value.complete
  }

  predicate ContextGood(l: Local) {
    match l.phase
    case Created | Attested => !l.context
    case GaveUp => true
    case Ending | Done => l.rec.Some? ==> l.context
    case _ => l.context
  }

  /** What outlives its record is on some cleanup's list, and nothing else is. */
  predicate DueGood(l: Local) {
    && (l.contextDue || l.bufferDue ==> Over(l.phase) && l.rec.None?)
    && (l.rec.None? ==> (l.context ==> l.contextDue) && (l.buf.Some? ==> l.bufferDue))
  }

  predicate ContainerGood(l: Local) {
    match l.phase
    case Tracked | Waiting | WaitFailed | Stopped | Exited(_) => l.container
    case Raised | Marked(_, _) | Ending => true
    case _ => !l.container
  }

  predicate Good(l: Local, maxOutput: nat) {
    RecordGood(l) && BufferGood(l, maxOutput) && ContextGood(l) && DueGood(l) && ContainerGood(l)
  }

  // The whole state.

  function Get<V>(m: map<Id, V>, id: Id): Option<V> {
    if id in m then Some(m[id]) else None
  }

  ghost predicate ContextDue(q: seq<Cleaning>, id: Id) {
    exists k :: 0 <= k < |q| && id in q[k].contexts
  }

  ghost predicate BufferDue(q: seq<Cleaning>, id: Id) {
    exists k :: 0 <= k < |q| && id in q[k].buffers
  }

  ghost function LocalOf(s: State, id: Id): Local
    requires id in s.phases && id in s.trail
  {
    Local(s.phases[id], s.trail[id], Get(s.mgr.recs, id), Get(s.bufs, id), id in s.contexts, id in s.containers,
          ContextDue(s.cleanups, id), BufferDue(s.cleanups, id))
  }

  /** No table knows an id that was never created. */
  ghost predicate KeysGood(s: State) {
    && s.trail.Keys == s.phases.Keys
    && s.mgr.recs.Keys <= s.phases.Keys && s.bufs.Keys <= s.phases.Keys
    && s.contexts <= s.phases.Keys && s.containers <= s.phases.Keys
    && (forall id :: ContextDue(s.cleanups, id) || BufferDue(s.cleanups, id) ==> id in s.phases)
  }

  /** The ids that were ever given the status Completed. */
  function EverCompleted(trail: map<Id, seq<ExecStatus>>): set<Id> {
    set id | id in trail && Completed in trail[id]
  }

  /** The ids that were ever given the status Failed or TimedOut. */
  function EverFailed(trail: map<Id, seq<ExecStatus>>): set<Id> {
    set id | id in trail && (Failed in trail[id] || TimedOut in trail[id])
  }

  predicate Counted(m: Manager, max: nat, created: nat, active: set<Id>, completed: set<Id>, failed: set<Id>) {
    && |active| <= max
    && m.total == created && m.ok == |completed| && m.failed == |failed|
    && |m.durations| == if m.ok + m.failed < MAX_DURATIONS then m.ok + m.failed else MAX_DURATIONS
  }

  /** The counters against the history, the active records against the limit. */
  ghost predicate MetricsGood(c: Config, m: Manager, trail: map<Id, seq<ExecStatus>>) {
    Counted(m, c.maxConcurrent, |trail|, ActiveIds(m.recs), EverCompleted(trail), EverFailed(trail))
  }

  ghost predicate AllGood(c: Config, s: State) {
    KeysGood(s) && forall id :: id in s.phases ==> Good(LocalOf(s, id), c.maxOutput)
  }

  ghost predicate Inv(c: Config, s: State) {
    AllGood(c, s) && MetricsGood(c, s.mgr, s.trail)
  }

  lemma GoodAt(c: Config, s: State, id: Id)
    requires AllGood(c, s) && id in s.phases
    ensures id in s.trail && Good(LocalOf(s, id), c.maxOutput)
  {
    hide Good, LocalOf;
  }

  lemma InvAt(c: Config, s: State, id: Id)
    requires Inv(c, s) && id in s.phases
    ensures id in s.trail && Good(LocalOf(s, id), c.maxOutput)
  {
    hide MetricsGood;
    GoodAt(c, s, id);
  }

  lemma InvKeys(c: Config, s: State)
    requires Inv(c, s)
    ensures KeysGood(s)
  {
    hide MetricsGood, KeysGood;
  }

  // Steps of one thread touch one id.

  ghost predicate OthersKeep(s: State, t: State, id: Id)
    requires KeysGood(s) && KeysGood(t)
  {
    && t.phases.Keys == s.phases.Keys + {id}
    && forall j :: j in s.phases && j != id ==> LocalOf(t, j) == LocalOf(s, j)
  }

  lemma OneStep(c: Config, s: State, t: State, id: Id)
    requires AllGood(c, s) && KeysGood(t) && OthersKeep(s, t, id)
    requires Good(LocalOf(t, id), c.maxOutput)
    ensures AllGood(c, t)
  {
    hide Good, LocalOf;
  }

  // The worker's steps.

  /** What one worker step does to its own execution. */
  function WorkLocal(l: Local, outcome: Outcome, now: Time): Local {
    match l.phase
    case Spawned => l.(phase := if l.rec.Some? then Fetched else Ending)
    case Fetched => l.(phase := Buffered, buf := if l.buf.Some? then l.buf else Some(EMPTY))
    case Buffered => SetLocal(l, Running, None, now).(phase := Started)
    case Started => l.(phase := if outcome.Fine? then ContainerMade else Raised)
    case ContainerMade => l.(phase := Tracked, container := true)
    case Tracked => l.(phase := if outcome.Fine? then Waiting else Raised)
    case Waiting => l.(phase := if outcome.Exits? then Exited(outcome.code) else WaitFailed)
    case WaitFailed => l.(phase := if outcome.Raises? then Raised else Stopped)
    case Stopped => MarkLocal(l, -1).(phase := if l.buf.Some? then Marked(TimedOut, -1) else Raised)
    case Exited(code) => MarkLocal(l, code).(phase := if l.buf.Some? then Marked(ExitStatus(code), code) else Raised)
    case Raised => MarkLocal(l, -1).(phase := Marked(Failed, -1))
    case Marked(status, code) => SetLocal(l, status, Some(code), now).(phase := Ending)
    case Ending => l.(phase := Done, container := false)
    case _ => l
  }

  function SetLocal(l: Local, status: ExecStatus, code: Option<int>, now: Time): Local {
    if l.rec.Some? then l.(rec := Some(Updated(l.rec.value, status, code, now)), trail := l.trail + [status]) else l
  }

  function MarkLocal(l: Local, code: int): Local {
    if l.buf.Some? then l.(buf := Some(MarkComplete(l.buf.value, code))) else l
  }

  /** From `s` to `t` only this execution changed, and it became `l`. */
  ghost predicate Touches(s: State, t: State, id: Id, l: Local) {
    KeysGood(s) && KeysGood(t) && id in s.phases && OthersKeep(s, t, id) && LocalOf(t, id) == l
  }

  lemma GotoKeys(t: State, id: Id, p: Phase)
    requires KeysGood(t) && id in t.phases
    ensures KeysGood(Goto(t, id, p)) && Goto(t, id, p).phases.Keys == t.phases.Keys
  {
    assert t.phases[id := p].Keys == t.phases.Keys;
  }

  lemma GotoLocal(t: State, id: Id, p: Phase, j: Id)
    requires id in t.phases && j in t.phases && j in t.trail
    ensures LocalOf(Goto(t, id, p), j) == if j == id then LocalOf(t, id).(phase := p) else LocalOf(t, j)
  {
  }

  lemma ThenGoto(s: State, t: State, id: Id, l: Local, p: Phase)
    requires Touches(s, t, id, l)
    ensures Touches(s, Goto(t, id, p), id, l.(phase := p))
  {
    GotoKeys(t, id, p);
    assert t.trail.Keys == t.phases.Keys;
    forall j | j in t.phases
      ensures LocalOf(Goto(t, id, p), j) == if j == id then LocalOf(t, id).(phase := p) else LocalOf(t, j)
    {
      GotoLocal(t, id, p, j);
    }
    hide LocalOf, KeysGood, Goto;
  }

  lemma StatusKeys(s: State, id: Id, status: ExecStatus, code: Option<int>, now: Time)
    requires KeysGood(s) && id in s.phases
    ensures var t := SetStatus(s, id, status, code, now); KeysGood(t) && t.phases == s.phases
  {
    if id in s.mgr.recs {
      assert s.trail[id := s.trail[id] + [status]].Keys == s.trail.Keys;
      assert Update(s.mgr, id, status, code, now).recs.Keys == s.mgr.recs.Keys;
    }
  }

  lemma StatusLocal(s: State, id: Id, status: ExecStatus, code: Option<int>, now: Time, j: Id)
    requires id in s.trail && j in s.phases && j in s.trail
    ensures var t := SetStatus(s, id, status, code, now);
            && j in t.trail
            && LocalOf(t, j) == if j == id then SetLocal(LocalOf(s, id), status, code, now) else LocalOf(s, j)
  {
  }

  lemma StatusTouches(s: State, id: Id, status: ExecStatus, code: Option<int>, now: Time)
    requires KeysGood(s) && id in s.phases
    ensures Touches(s, SetStatus(s, id, status, code, now), id, SetLocal(LocalOf(s, id), status, code, now))
  {
    StatusKeys(s, id, status, code, now);
    assert s.trail.Keys == s.phases.Keys;
    forall j | j in s.phases
      ensures j in SetStatus(s, id, status, code, now).trail
      ensures LocalOf(SetStatus(s, id, status, code, now), j)
              == if j == id then SetLocal(LocalOf(s, id), status, code, now) else LocalOf(s, j)
    {
      StatusLocal(s, id, status, code, now, j);
    }
    hide LocalOf, KeysGood, SetStatus, SetLocal;
  }

  lemma BufferTouches(s: State, id: Id, b: Buffer)
    requires KeysGood(s) && id in s.phases
    ensures Touches(s, s.(bufs := s.bufs[id := b]), id, LocalOf(s, id).(buf := Some(b)))
  {
  }

  lemma ContainerTouches(s: State, id: Id, add: bool)
    requires KeysGood(s) && id in s.phases
    ensures Touches(s, s.(containers := if add then s.containers + {id} else s.containers - {id}), id,
                    LocalOf(s, id).(container := add))
  {
  }

  lemma StreamsTouchNothing(s: State, id: Id)
    requires KeysGood(s) && id in s.phases
    ensures Touches(s, s.(streams := s.streams + {id}), id, LocalOf(s, id))
    ensures Touches(s, s, id, LocalOf(s, id))
  {
  }

  lemma QueuedWorkIsLocal(s: State, id: Id, outcome: Outcome, now: Time)
    requires KeysGood(s) && id in s.phases && BeforeRun(s.phases[id])
    ensures Touches(s, ApplyWork(s, id, outcome, now), id, WorkLocal(LocalOf(s, id), outcome, now))
  {
    var l, l' := LocalOf(s, id), WorkLocal(LocalOf(s, id), outcome, now);
    StreamsTouchNothing(s, id);
    hide Touches, KeysGood, SetLocal, SetStatus;
    if s.phases[id] == Fetched && id !in s.bufs {
      BufferTouches(s, id, EMPTY);
      ThenGoto(s, s.(bufs := s.bufs[id := EMPTY]), id, l.(buf := Some(EMPTY)), l'.phase);
    } else if s.phases[id] == Buffered {
      StatusTouches(s, id, Running, None, now);
      ThenGoto(s, SetStatus(s, id, Running, None, now), id, SetLocal(l, Running, None, now), l'.phase);
    } else if s.phases[id] == Fetched || s.phases[id] == Spawned {
      ThenGoto(s, s, id, l, l'.phase);
    }
  }

  lemma PlainWorkIsLocal(s: State, id: Id, outcome: Outcome, now: Time)
    requires KeysGood(s) && id in s.phases
    requires var p := s.phases[id];
             p.Started? || p.ContainerMade? || p.Tracked? || p.Waiting? || p.WaitFailed? || Over(p)
    ensures Touches(s, ApplyWork(s, id, outcome, now), id, WorkLocal(LocalOf(s, id), outcome, now))
  {
    var l, l' := LocalOf(s, id), WorkLocal(LocalOf(s, id), outcome, now);
    StreamsTouchNothing(s, id);
    hide Touches, KeysGood;
    match s.phases[id]
    case ContainerMade =>
      ContainerTouches(s, id, true);
      ThenGoto(s, s.(containers := s.containers + {id}), id, l.(container := true), Tracked);
    case Ending =>
      ContainerTouches(s, id, false);
      ThenGoto(s, s.(containers := s.containers - {id}), id, l.(container := false), Done);
    case Tracked => ThenGoto(s, s.(streams := s.streams + {id}), id, l, l'.phase);
    case Done =>
    case _ => ThenGoto(s, s, id, l, l'.phase);
  }

  lemma MarkingWorkIsLocal(s: State, id: Id, outcome: Outcome, now: Time)
    requires KeysGood(s) && id in s.phases
    requires var p := s.phases[id]; p.Stopped? || p.Exited? || p.Raised? || p.Marked?
    ensures Touches(s, ApplyWork(s, id, outcome, now), id, WorkLocal(LocalOf(s, id), outcome, now))
  {
    var l, l' := LocalOf(s, id), WorkLocal(LocalOf(s, id), outcome, now);
    hide Touches, KeysGood, SetLocal, SetStatus, Mark, MarkLocal;
    match s.phases[id]
    case Marked(status, code) =>
      StatusTouches(s, id, status, Some(code), now);
      ThenGoto(s, SetStatus(s, id, status, Some(code), now), id, SetLocal(l, status, Some(code), now), Ending);
    case Exited(code) => MarkThenGoto(s, id, code, l'.phase);
    case _ => MarkThenGoto(s, id, -1, l'.phase);
  }

  lemma WorkIsLocal(s: State, id: Id, outcome: Outcome, now: Time)
    requires KeysGood(s) && id in s.phases
    ensures Touches(s, ApplyWork(s, id, outcome, now), id, WorkLocal(LocalOf(s, id), outcome, now))
  {
    hide Touches, KeysGood, ApplyWork, WorkLocal, LocalOf;
    var p := s.phases[id];
    if BeforeRun(p) {
      QueuedWorkIsLocal(s, id, outcome, now);
    } else if p.Stopped? || p.Exited? || p.Raised? || p.Marked? {
      MarkingWorkIsLocal(s, id, outcome, now);
    } else {
      PlainWorkIsLocal(s, id, outcome, now);
    }
  }

  lemma MarkThenGoto(s: State, id: Id, code: int, p: Phase)
    requires KeysGood(s) && id in s.phases
    ensures Touches(s, Goto(Mark(s, id, code), id, p), id, MarkLocal(LocalOf(s, id), code).(phase := p))
  {
    StreamsTouchNothing(s, id);
    if id in s.bufs {
      BufferTouches(s, id, MarkComplete(s.bufs[id], code));
    }
    ThenGoto(s, Mark(s, id, code), id, MarkLocal(LocalOf(s, id), code), p);
  }

  lemma QueuedWorkGood(l: Local, outcome: Outcome, now: Time, maxOutput: nat)
    requires Good(l, maxOutput) && BeforeRun(l.phase)
    ensures Good(WorkLocal(l, outcome, now), maxOutput)
  {
  }

  lemma RunningWorkGood(l: Local, outcome: Outcome, now: Time, maxOutput: nat)
    requires Good(l, maxOutput) && InRun(l.phase) && !l.phase.Marked?
    ensures Good(WorkLocal(l, outcome, now), maxOutput)
  {
  }

  lemma WritingWorkGood(l: Local, outcome: Outcome, now: Time, maxOutput: nat)
    requires Good(l, maxOutput) && l.phase.Marked?
    ensures Good(WorkLocal(l, outcome, now), maxOutput)
  {
  }

  lemma EndingWorkGood(l: Local, outcome: Outcome, now: Time, maxOutput: nat)
    requires Good(l, maxOutput) && Over(l.phase)
    ensures Good(WorkLocal(l, outcome, now), maxOutput)
  {
    hide SetLocal, MarkLocal;
  }

  lemma FinishingWorkGood(l: Local, outcome: Outcome, now: Time, maxOutput: nat)
    requires Good(l, maxOutput) && (l.phase.Marked? || Over(l.phase))
    ensures Good(WorkLocal(l, outcome, now), maxOutput)
  {
    hide Good, WorkLocal;
    if l.phase.Marked? {
      WritingWorkGood(l, outcome, now, maxOutput);
    } else {
      EndingWorkGood(l, outcome, now, maxOutput);
    }
  }

  lemma WorkKeeps(c: Config, s: State, id: Id, outcome: Outcome, now: Time)
    requires AllGood(c, s)
    ensures AllGood(c, ApplyWork(s, id, outcome, now))
  {
    if id in s.phases {
      GoodAt(c, s, id);
      WorkIsLocal(s, id, outcome, now);
      var l := LocalOf(s, id);
      hide Good, ApplyWork, WorkLocal, AllGood;
      if BeforeRun(l.phase) {
        QueuedWorkGood(l, outcome, now, c.maxOutput);
      } else if l.phase.Marked? || Over(l.phase) {
        FinishingWorkGood(l, outcome, now, c.maxOutput);
      } else {
        RunningWorkGood(l, outcome, now, c.maxOutput);
      }
      OneStep(c, s, ApplyWork(s, id, outcome, now), id);
    }
  }

  // The handler's steps.

  lemma CreateKeys(s: State, id: Id)
    requires KeysGood(s) && id !in s.phases
    ensures KeysGood(Admitted(s, id)) && Admitted(s, id).phases.Keys == s.phases.Keys + {id}
  {
    assert s.phases[id := Created].Keys == s.phases.Keys + {id};
    assert s.trail[id := [Queued]].Keys == s.trail.Keys + {id};
    assert ExecutionRecords.Create(s.mgr, id).recs.Keys == s.mgr.recs.Keys + {id};
  }

  /** The state in which a new execution was admitted. */
  function Admitted(s: State, id: Id): State {
    Goto(s.(mgr := ExecutionRecords.Create(s.mgr, id), trail := s.trail[id := [Queued]]), id, Created)
  }

  lemma CreateLocal(s: State, id: Id, j: Id)
    requires KeysGood(s) && id !in s.phases && (j in s.phases || j == id)
    ensures var t := Admitted(s, id);
            && j in t.phases && j in t.trail
            && LocalOf(t, j) == if j == id then Local(Created, [Queued], Some(NEW), None, false, false, false, false)
                                else LocalOf(s, j)
  {
  }

  lemma CreateKeeps(c: Config, s: State, id: Id)
    requires AllGood(c, s)
    ensures AllGood(c, ApplyCreate(c, s, id))
  {
    if ApplyCreate(c, s, id) != s {
      var t := Admitted(s, id);
      CreateKeys(s, id);
      forall j | j in s.phases || j == id
        ensures j in t.phases && j in t.trail
        ensures LocalOf(t, j) == if j == id then Local(Created, [Queued], Some(NEW), None, false, false, false, false)
                                 else LocalOf(s, j)
      {
        CreateLocal(s, id, j);
      }
      hide LocalOf, KeysGood, AllGood;
      OneStep(c, s, t, id);
    }
  }

  lemma AttestKeeps(c: Config, s: State, id: Id, ok: bool)
    requires AllGood(c, s)
    ensures AllGood(c, ApplyAttest(s, id, ok))
  {
    if At(s, id, Created) {
      GoodAt(c, s, id);
      var t := ApplyAttest(s, id, ok);
      StreamsTouchNothing(s, id);
      ThenGoto(s, s, id, LocalOf(s, id), t.phases[id]);
      OneStep(c, s, t, id);
    }
  }

  lemma ContextTouches(s: State, id: Id)
    requires KeysGood(s) && id in s.phases
    ensures Touches(s, s.(contexts := s.contexts + {id}), id, LocalOf(s, id).(context := true))
  {
  }

  lemma StoreKeeps(c: Config, s: State, id: Id)
    requires AllGood(c, s)
    ensures AllGood(c, ApplyStore(s, id))
  {
    if At(s, id, Attested) {
      GoodAt(c, s, id);
      var t := ApplyStore(s, id);
      ContextTouches(s, id);
      ThenGoto(s, s.(contexts := s.contexts + {id}), id, LocalOf(s, id).(context := true), Stored);
      hide AllGood, KeysGood, OthersKeep;
      OneStep(c, s, t, id);
    }
  }

  lemma HandOffKeeps(c: Config, s: State, id: Id, ok: bool)
    requires AllGood(c, s)
    ensures AllGood(c, ApplyHandOff(s, id, ok))
  {
    if At(s, id, Stored) {
      GoodAt(c, s, id);
      var t := ApplyHandOff(s, id, ok);
      StreamsTouchNothing(s, id);
      ThenGoto(s, s, id, LocalOf(s, id), t.phases[id]);
      OneStep(c, s, t, id);
    }
  }

  // The log threads.

  lemma CaptureWithinBudget(b: Buffer, max: nat, stream: Stream, data: seq<Byte>)
    requires b.Size() <= max
    ensures var t := Capture(b, max, stream, data);
            t.Size() <= max && t.complete == b.complete && t.exitCode == b.exitCode
  {
  }

  lemma CaptureGood(l: Local, maxOutput: nat, stream: Stream, data: seq<Byte>)
    requires Good(l, maxOutput) && l.buf.Some?
    ensures Good(l.(buf := Some(Capture(l.buf.value, maxOutput, stream, data))), maxOutput)
  {
    CaptureWithinBudget(l.buf.value, maxOutput, stream, data);
    hide Capture;
  }

  lemma LogKeeps(c: Config, s: State, id: Id, stream: Stream, data: seq<Byte>)
    requires AllGood(c, s)
    ensures AllGood(c, ApplyLog(c, s, id, stream, data))
  {
    if id in s.streams && id in s.bufs {
      var t := ApplyLog(c, s, id, stream, data);
      GoodAt(c, s, id);
      var b := Capture(s.bufs[id], c.maxOutput, stream, data);
      BufferTouches(s, id, b);
      hide AllGood, Capture;
      CaptureGood(LocalOf(s, id), c.maxOutput, stream, data);
      OneStep(c, s, t, id);
    }
  }

  // The cleanup's steps.

  lemma StartDues(q: seq<Cleaning>, ids: seq<Id>, id: Id)
    ensures ContextDue(q + [Cleaning(ids, ids)], id) <==> ContextDue(q, id) || id in Elements(ids)
    ensures BufferDue(q + [Cleaning(ids, ids)], id) <==> BufferDue(q, id) || id in Elements(ids)
  {
    var q' := q + [Cleaning(ids, ids)];
    assert q'[|q|] == Cleaning(ids, ids);
    assert forall k :: 0 <= k < |q| ==> q'[k] == q[k];
    assert id in ids <==> id in Elements(ids);
  }

  lemma CleanStartKeeps(c: Config, s: State, cutoff: Time, ids: seq<Id>)
    requires AllGood(c, s)
    ensures AllGood(c, ApplyCleanStart(s, cutoff, ids))
  {
    if Elements(ids) == ExpiredIds(s.mgr.recs, cutoff) {
      var t := ApplyCleanStart(s, cutoff, ids);
      forall id
        ensures ContextDue(t.cleanups, id) <==> ContextDue(s.cleanups, id) || id in Elements(ids)
        ensures BufferDue(t.cleanups, id) <==> BufferDue(s.cleanups, id) || id in Elements(ids)
      {
        StartDues(s.cleanups, ids, id);
      }
      assert KeysGood(t);
      forall id | id in t.phases
        ensures Good(LocalOf(t, id), c.maxOutput)
      {
        var l := LocalOf(s, id);
        GoodAt(c, s, id);
        hide Good;
        if id in Elements(ids) {
          assert LocalOf(t, id) == l.(rec := None, contextDue := true, bufferDue := true);
          ExpiredGood(l, c.maxOutput);
        } else {
          assert LocalOf(t, id) == l;
        }
      }
    }
  }

  lemma ExpiredGood(l: Local, maxOutput: nat)
    requires Good(l, maxOutput) && l.rec.Some? && l.rec.value.status.Terminal()
    ensures Good(l.(rec := None, contextDue := true, bufferDue := true), maxOutput)
  {
  }

  lemma NextDues(q: seq<Cleaning>, k: nat, r: Cleaning, id: Id)
    requires k < |q|
    requires r == if q[k].contexts != [] then q[k].(contexts := q[k].contexts[1..])
                  else if q[k].buffers != [] then q[k].(buffers := q[k].buffers[1..])
                  else q[k]
    ensures ContextDue(q[k := r], id) ==> ContextDue(q, id)
    ensures BufferDue(q[k := r], id) ==> BufferDue(q, id)
    ensures ContextDue(q, id) ==> ContextDue(q[k := r], id) || (q[k].contexts != [] && id == q[k].contexts[0])
    ensures BufferDue(q, id) ==>
        BufferDue(q[k := r], id) || (q[k].buffers != [] && q[k].contexts == [] && id == q[k].buffers[0])
  {
    var q' := q[k := r];
    assert id in r.contexts ==> id in q[k].contexts;
    assert id in r.buffers ==> id in q[k].buffers;
    assert q'[k] == r && forall j :: 0 <= j < |q| && j != k ==> q'[j] == q[j];
    if ContextDue(q, id) && !(q[k].contexts != [] && id == q[k].contexts[0]) {
      var j :| 0 <= j < |q| && id in q[j].contexts;
      assert id in q'[j].contexts;
    }
    if BufferDue(q, id) && !(q[k].buffers != [] && q[k].contexts == [] && id == q[k].buffers[0]) {
      var j :| 0 <= j < |q| && id in q[j].buffers;
      assert id in q'[j].buffers;
    }
  }

  /** Removing a context or a buffer that is due. */
  lemma RemovalGood(l: Local, l': Local, maxOutput: nat)
    requires Good(l, maxOutput)
    requires l' == l.(context := l'.context, buf := l'.buf, contextDue := l'.contextDue, bufferDue := l'.bufferDue)
    requires l'.contextDue ==> l.contextDue
    requires l'.bufferDue ==> l.bufferDue
    requires l.contextDue && !l'.contextDue ==> !l'.context
    requires l.bufferDue && !l'.bufferDue ==> l'.buf.None?
    requires l'.context == l.context || (l.contextDue && !l'.context)
    requires l'.buf == l.buf || (l.bufferDue && l'.buf.None?)
    ensures Good(l', maxOutput)
  {
  }

  lemma CleanNextKeeps(c: Config, s: State, k: nat)
    requires AllGood(c, s)
    ensures AllGood(c, ApplyCleanNext(s, k))
  {
    hide Good;
    if k < |s.cleanups| {
      var t := ApplyCleanNext(s, k);
      var q := s.cleanups;
      if t != s {
        assert t.cleanups == q[k := t.cleanups[k]];
        forall id
          ensures ContextDue(t.cleanups, id) ==> ContextDue(q, id)
          ensures BufferDue(t.cleanups, id) ==> BufferDue(q, id)
          ensures ContextDue(q, id) ==> ContextDue(t.cleanups, id) || (q[k].contexts != [] && id == q[k].contexts[0])
          ensures BufferDue(q, id) ==>
              BufferDue(t.cleanups, id) || (q[k].buffers != [] && q[k].contexts == [] && id == q[k].buffers[0])
        {
          NextDues(q, k, t.cleanups[k], id);
        }
        assert q[k].contexts != [] ==> ContextDue(q, q[k].contexts[0]);
        assert q[k].buffers != [] ==> BufferDue(q, q[k].buffers[0]);
        assert KeysGood(t);
        forall id | id in t.phases
          ensures Good(LocalOf(t, id), c.maxOutput)
        {
          GoodAt(c, s, id);
          hide ContextDue, BufferDue;
          RemovalGood(LocalOf(s, id), LocalOf(t, id), c.maxOutput);
        }
      }
    }
  }

  // The counters.

  lemma ActiveAfterUpdate(m: Manager, id: Id, status: ExecStatus, code: Option<int>, now: Time)
    requires id in m.recs && !m.recs[id].status.Terminal()
    ensures ActiveIds(Update(m, id, status, code, now).recs)
         == if status.Terminal() then ActiveIds(m.recs) - {id} else ActiveIds(m.recs)
  {
  }

  lemma EverAfter(trail: map<Id, seq<ExecStatus>>, id: Id, status: ExecStatus)
    requires id in trail
    ensures var t := trail[id := trail[id] + [status]];
            && |t| == |trail|
            && EverCompleted(t) == (if status == Completed then EverCompleted(trail) + {id} else EverCompleted(trail))
            && EverFailed(t)
               == (if status == Failed || status == TimedOut then EverFailed(trail) + {id} else EverFailed(trail))
  {
  }

  lemma OneTerminalCounted(m: Manager, m': Manager, max: nat, created: nat, active: set<Id>, completed: set<Id>,
                           failed: set<Id>, id: Id, status: ExecStatus)
    requires Counted(m, max, created, active, completed, failed)
    requires id in active && id !in completed && id !in failed && status.Terminal()
    requires m'.total == m.total
    requires m'.ok == m.ok + (if status == Completed then 1 else 0)
    requires m'.failed == m.failed + (if status == Completed then 0 else 1)
    requires exists d :: m'.durations == Push(m.durations, d)
    ensures Counted(m', max, created, active - {id}, if status == Completed then completed + {id} else completed,
                    if status == Completed then failed else failed + {id})
  {
    var d :| m'.durations == Push(m.durations, d);
    PushKeeps(m.durations, d);
    hide Push;
  }

  /** The first terminal status of an execution counts once, in one counter, with one duration. */
  lemma UpdateKeepsMetrics(c: Config, m: Manager, trail: map<Id, seq<ExecStatus>>, id: Id, status: ExecStatus,
                           code: Option<int>, now: Time)
    requires MetricsGood(c, m, trail) && id in m.recs && id in trail
    requires !m.recs[id].status.Terminal() && forall x :: x in trail[id] ==> !x.Terminal()
    requires status == Running || (status.Terminal() && m.recs[id].startedAt.Some? && m.recs[id].completedAt.None?)
    ensures MetricsGood(c, Update(m, id, status, code, now), trail[id := trail[id] + [status]])
  {
    assert id in ActiveIds(m.recs) && id !in EverCompleted(trail) && id !in EverFailed(trail);
    hide ActiveIds, EverCompleted, EverFailed, Push, Counted, Update;
    ActiveAfterUpdate(m, id, status, code, now);
    EverAfter(trail, id, status);
    if status == Running {
      NothingCounted(m, id, code, now, c.maxConcurrent, |trail|, ActiveIds(m.recs), EverCompleted(trail),
                     EverFailed(trail));
    } else {
      TerminalUpdate(m, id, status, code, now);
      OneTerminalCounted(m, Update(m, id, status, code, now), c.maxConcurrent, |trail|, ActiveIds(m.recs),
                         EverCompleted(trail), EverFailed(trail), id, status);
    }
  }

  lemma NothingCounted(m: Manager, id: Id, code: Option<int>, now: Time, max: nat, created: nat, active: set<Id>,
                       completed: set<Id>, failed: set<Id>)
    requires id in m.recs && Counted(m, max, created, active, completed, failed)
    ensures Counted(Update(m, id, Running, code, now), max, created, active, completed, failed)
  {
  }

  lemma TerminalUpdate(m: Manager, id: Id, status: ExecStatus, code: Option<int>, now: Time)
    requires id in m.recs && status.Terminal() && m.recs[id].startedAt.Some? && m.recs[id].completedAt.None?
    ensures var m' := Update(m, id, status, code, now);
            && m'.total == m.total
            && m'.ok == m.ok + (if status == Completed then 1 else 0)
            && m'.failed == m.failed + (if status == Completed then 0 else 1)
            && m'.durations == Push(m.durations, now - m.recs[id].startedAt.value)
  {
    hide Push;
  }

  lemma CreateActive(recs: map<Id, Rec>, id: Id)
    requires id !in recs
    ensures ActiveIds(recs[id := NEW]) == ActiveIds(recs) + {id}
  {
  }

  lemma CreateEver(trail: map<Id, seq<ExecStatus>>, t: map<Id, seq<ExecStatus>>, id: Id)
    requires id !in trail && t == trail[id := [Queued]]
    ensures EverCompleted(t) == EverCompleted(trail) && EverFailed(t) == EverFailed(trail)
    ensures |t| == |trail| + 1
  {
  }

  lemma CreateKeepsMetrics(c: Config, m: Manager, trail: map<Id, seq<ExecStatus>>, id: Id)
    requires MetricsGood(c, m, trail) && |ActiveIds(m.recs)| < c.maxConcurrent
    requires id !in m.recs && id !in trail
    ensures MetricsGood(c, ExecutionRecords.Create(m, id), trail[id := [Queued]])
  {
    CreateActive(m.recs, id);
    CreateEver(trail, trail[id := [Queued]], id);
    assert |ActiveIds(m.recs) + {id}| == |ActiveIds(m.recs)| + 1;
  }

  lemma CleanStartKeepsMetrics(c: Config, m: Manager, trail: map<Id, seq<ExecStatus>>, cutoff: Time)
    requires MetricsGood(c, m, trail)
    ensures MetricsGood(c, DropExpired(m, cutoff), trail)
  {
    assert ActiveIds(DropExpired(m, cutoff).recs) == ActiveIds(m.recs);
  }

  lemma OtherWorkKeepsTable(s: State, id: Id, outcome: Outcome, now: Time)
    requires id in s.phases && !s.phases[id].Buffered? && !s.phases[id].Marked?
    ensures ApplyWork(s, id, outcome, now).mgr == s.mgr && ApplyWork(s, id, outcome, now).trail == s.trail
  {
  }

  lemma RunningKeepsMetrics(c: Config, s: State, id: Id, outcome: Outcome, now: Time)
    requires Inv(c, s) && id in s.phases && s.phases[id].Buffered?
    ensures var t := ApplyWork(s, id, outcome, now); MetricsGood(c, t.mgr, t.trail)
  {
    hide AllGood, MetricsGood, BufferGood, ContextGood, DueGood, ContainerGood, ContextDue, BufferDue, Update;
    InvAt(c, s, id);
    UpdateKeepsMetrics(c, s.mgr, s.trail, id, Running, None, now);
  }

  lemma MarkedLocal(l: Local, maxOutput: nat)
    requires Good(l, maxOutput) && l.phase.Marked?
    ensures l.phase.status.Terminal() && l.rec.Some? && l.trail == [Queued, Running]
    ensures l.rec.value == Rec(Running, l.rec.value.startedAt, None, None) && l.rec.value.startedAt.Some?
  {
  }

  lemma MarkedWork(s: State, id: Id, outcome: Outcome, now: Time)
    requires id in s.phases && s.phases[id].Marked? && id in s.mgr.recs && id in s.trail
    ensures var t, status := ApplyWork(s, id, outcome, now), s.phases[id].status;
            t.mgr == Update(s.mgr, id, status, Some(s.phases[id].code), now)
            && t.trail == s.trail[id := s.trail[id] + [status]]
  {
  }

  lemma MarkedIsTerminal(c: Config, s: State, id: Id)
    requires Inv(c, s) && id in s.phases && s.phases[id].Marked?
    ensures s.phases[id].status.Terminal() && id in s.mgr.recs && id in s.trail && s.trail[id] == [Queued, Running]
    ensures s.mgr.recs[id] == Rec(Running, s.mgr.recs[id].startedAt, None, None) && s.mgr.recs[id].startedAt.Some?
  {
    hide Inv, Good, ContextDue, BufferDue;
    InvAt(c, s, id);
    MarkedLocal(LocalOf(s, id), c.maxOutput);
  }

  lemma FinishKeepsMetrics(c: Config, s: State, id: Id, outcome: Outcome, now: Time)
    requires Inv(c, s) && id in s.phases && s.phases[id].Marked?
    ensures var t := ApplyWork(s, id, outcome, now); MetricsGood(c, t.mgr, t.trail)
  {
    hide AllGood, MetricsGood, Update, ApplyWork;
    MarkedIsTerminal(c, s, id);
    MarkedWork(s, id, outcome, now);
    UpdateKeepsMetrics(c, s.mgr, s.trail, id, s.phases[id].status, Some(s.phases[id].code), now);
  }

  lemma WorkKeepsMetrics(c: Config, s: State, id: Id, outcome: Outcome, now: Time)
    requires Inv(c, s)
    ensures var t := ApplyWork(s, id, outcome, now); MetricsGood(c, t.mgr, t.trail)
  {
    assert MetricsGood(c, s.mgr, s.trail);
    hide AllGood, MetricsGood, Inv, ApplyWork;
    if id in s.phases {
      var p := s.phases[id];
      if p.Buffered? {
        RunningKeepsMetrics(c, s, id, outcome, now);
      } else if p.Marked? {
        FinishKeepsMetrics(c, s, id, outcome, now);
      } else {
        OtherWorkKeepsTable(s, id, outcome, now);
      }
    }
  }

  lemma OtherStepsKeepTable(c: Config, s: State, step: Step)
    requires !step.Create? && !step.Work? && !step.CleanStart?
    ensures Apply(c, s, step).mgr == s.mgr && Apply(c, s, step).trail == s.trail
  {
  }

  lemma CreateStepKeepsMetrics(c: Config, s: State, id: Id)
    requires Inv(c, s)
    ensures var t := ApplyCreate(c, s, id); MetricsGood(c, t.mgr, t.trail)
  {
    hide MetricsGood, ActiveIds, Good, LocalOf;
    InvKeys(c, s);
    if ApplyCreate(c, s, id) != s {
      CreateKeepsMetrics(c, s.mgr, s.trail, id);
    }
  }

  lemma StepKeepsMetrics(c: Config, s: State, step: Step)
    requires Inv(c, s)
    ensures var t := Apply(c, s, step); MetricsGood(c, t.mgr, t.trail)
  {
    assert MetricsGood(c, s.mgr, s.trail);
    hide MetricsGood, Inv, ApplyCreate, ApplyWork, DropExpired;
    match step
    case Create(id) => CreateStepKeepsMetrics(c, s, id);
    case Work(id, outcome, now) => WorkKeepsMetrics(c, s, id, outcome, now);
    case CleanStart(cutoff, ids) => CleanStartKeepsMetrics(c, s.mgr, s.trail, cutoff);
    case _ => OtherStepsKeepTable(c, s, step);
  }

  lemma StepKeepsAll(c: Config, s: State, step: Step)
    requires AllGood(c, s)
    ensures AllGood(c, Apply(c, s, step))
  {
    hide AllGood;
    hide ApplyCreate, ApplyAttest, ApplyStore, ApplyHandOff, ApplyWork, ApplyLog, ApplyCleanStart, ApplyCleanNext;
    match step
    case Create(id) => CreateKeeps(c, s, id);
    case Attest(id, ok) => AttestKeeps(c, s, id, ok);
    case StoreContext(id) => StoreKeeps(c, s, id);
    case HandOff(id, ok) => HandOffKeeps(c, s, id, ok);
    case Work(id, outcome, now) => WorkKeeps(c, s, id, outcome, now);
    case Log(id, stream, data) => LogKeeps(c, s, id, stream, data);
    case CleanStart(cutoff, ids) => CleanStartKeeps(c, s, cutoff, ids);
    case CleanNext(k) => CleanNextKeeps(c, s, k);
  }

  // Every run.

  lemma InitialInv(c: Config)
    ensures Inv(c, INITIAL)
  {
  }

  lemma StepKeepsInv(c: Config, s: State, step: Step)
    requires Inv(c, s)
    ensures Inv(c, Apply(c, s, step))
  {
    hide AllGood, MetricsGood, Apply;
    StepKeepsAll(c, s, step);
    StepKeepsMetrics(c, s, step);
  }

  lemma {:induction false} RunKeepsInv(c: Config, s: State, steps: seq<Step>)
    requires Inv(c, s)
    ensures Inv(c, RunAll(c, s, steps))
    decreases |steps|
  {
    hide Inv, Apply;
    if steps != [] {
      StepKeepsInv(c, s, steps[0]);
      RunKeepsInv(c, Apply(c, s, steps[0]), steps[1..]);
    }
  }
}
