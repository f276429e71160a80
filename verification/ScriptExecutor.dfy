/**
 * The worker thread's program over the real tables. Each statement that touches a shared
 * table is shown to be the step of the same name in the lifecycle's step system.
 */
module ScriptExecutor {
  import opened Prelude
  import opened ExecutionRecords
  import opened OutputStreams
  import opened OutputCollection
  import opened ExecutionManagement
  import opened Lifecycle

  /** How the subprocess and the container engine behave during one execution. */
  datatype Engine = Engine(
    chmodOk: bool, createOk: bool, startOk: bool, chunks: seq<Chunk>, wait: Option<int>, stopOk: bool)

  datatype Chunk = Chunk(stream: Stream, data: seq<Byte>)

  /** The status and exit code an execution must end with. */
  function Verdict(e: Engine): (ExecStatus, int) {
    if !Launched(e) then (Failed, -1)
    else match e.wait
      case Some(code) => (if code == 0 then Completed else Failed, code)
      case None => (if e.stopOk then TimedOut else Failed, -1)
  }

  /** The container was started. */
  predicate Launched(e: Engine) {
    e.chmodOk && e.createOk && e.startOk
  }

  /** The log threads were joined: the wait ended, or the container could be stopped. */
  predicate Joined(e: Engine) {
    Launched(e) && (e.wait.Some? || e.stopOk)
  }

  /** The log steps of the first `n` chunks; the source skips empty ones. */
  function LogSteps(id: Id, chunks: seq<Chunk>, n: nat): seq<Lifecycle.Step>
    requires n <= |chunks|
  {
    if n == 0 then []
    else
      var chunk := chunks[n - 1];
      LogSteps(id, chunks, n - 1) + (if chunk.data == [] then [] else [Log(id, chunk.stream, chunk.data)])
  }

  function CapturedUpTo(b: Buffer, max: nat, chunks: seq<Chunk>, n: nat): Buffer
    requires n <= |chunks|
  {
    if n == 0 then b
    else Capture(CapturedUpTo(b, max, chunks, n - 1), max, chunks[n - 1].stream, chunks[n - 1].data)
  }

  /** The bytes of the first `n` chunks, each with its stream. */
  function TaggedUpTo(chunks: seq<Chunk>, n: nat): seq<Tagged>
    requires n <= |chunks|
  {
    if n == 0 then [] else TaggedUpTo(chunks, n - 1) + Tag(chunks[n - 1].stream, chunks[n - 1].data)
  }

  /** Everything the container delivered before the joins. */
  function Delivered(e: Engine): seq<Tagged> {
    if Joined(e) then TaggedUpTo(e.chunks, |e.chunks|) else []
  }

  /** The buffer that an execution leaves, from the one it began with. */
  function FinalBuffer(b: Buffer, max: nat, e: Engine): Buffer {
    MarkComplete(if Joined(e) then CapturedUpTo(b, max, e.chunks, |e.chunks|) else b, Verdict(e).1)
  }

  function FirstBuffer(bufs: map<Id, Buffer>, id: Id): Buffer {
    if id in bufs then bufs[id] else EMPTY
  }

  /** What the chunks hold of one stream. */
  function BytesOf(chunks: seq<Chunk>, s: Stream, n: nat): seq<Byte>
    requires n <= |chunks|
  {
    if n == 0 then []
    else BytesOf(chunks, s, n - 1) + (if chunks[n - 1].stream == s then chunks[n - 1].data else [])
  }

  lemma {:induction false} ProjectTag(s: Stream, data: seq<Byte>, want: Stream)
    ensures Project(Tag(s, data), want) == if s == want then data else []
  {
    if data != [] {
      var log := Tag(s, data);
      assert log[1..] == Tag(s, data[1..]);
      ProjectTag(s, data[1..], want);
      assert data == [data[0]] + data[1..];
    }
  }

  lemma {:induction false} ProjectTagged(chunks: seq<Chunk>, n: nat, want: Stream)
    requires n <= |chunks|
    ensures Project(TaggedUpTo(chunks, n), want) == BytesOf(chunks, want, n)
    decreases n
  {
    hide Project, Tag;
    if n == 0 {
      assert Project([], want) == [] by { ProjectNothing(want); }
    } else {
      ProjectTagged(chunks, n - 1, want);
      ProjectTag(chunks[n - 1].stream, chunks[n - 1].data, want);
      ProjectAppend(TaggedUpTo(chunks, n - 1), Tag(chunks[n - 1].stream, chunks[n - 1].data), want);
    }
  }

  lemma {:induction false} ProjectNothing(want: Stream)
    ensures Project([], want) == []
  {
  }

  lemma {:induction false} TaggedLength(chunks: seq<Chunk>, n: nat)
    requires n <= |chunks|
    ensures |TaggedUpTo(chunks, n)| == |BytesOf(chunks, Stdout, n)| + |BytesOf(chunks, Stderr, n)|
    decreases n
  {
    if n > 0 {
      TaggedLength(chunks, n - 1);
    }
  }

  /** Within the budget a buffer that holds the chunks has all their bytes, each in its own stream. */
  lemma {:induction false} WithinBudget(b: Buffer, max: nat, chunks: seq<Chunk>)
    requires Holds(b, max, TaggedUpTo(chunks, |chunks|))
    ensures var out, err := BytesOf(chunks, Stdout, |chunks|), BytesOf(chunks, Stderr, |chunks|);
            && (b.truncated <==> |out| + |err| > max)
            && (!b.truncated ==> b.stdout == out && b.stderr == err)
  {
    hide BytesOf, TaggedUpTo, Project;
    TaggedLength(chunks, |chunks|);
    ProjectTagged(chunks, |chunks|, Stdout);
    ProjectTagged(chunks, |chunks|, Stderr);
  }

  lemma {:induction false} CapturedUpToHolds(b: Buffer, max: nat, log: seq<Tagged>, chunks: seq<Chunk>, n: nat)
    requires n <= |chunks| && Holds(b, max, log)
    ensures Holds(CapturedUpTo(b, max, chunks, n), max, log + TaggedUpTo(chunks, n))
    decreases n
  {
    hide Holds, Capture, Tag;
    if n == 0 {
      assert log + [] == log;
    } else {
      CapturedUpToHolds(b, max, log, chunks, n - 1);
      CaptureHolds(CapturedUpTo(b, max, chunks, n - 1), max, log + TaggedUpTo(chunks, n - 1), chunks[n - 1].stream,
                   chunks[n - 1].data);
      Assoc(log, TaggedUpTo(chunks, n - 1), Tag(chunks[n - 1].stream, chunks[n - 1].data));
    }
  }

  /** It is complete, carries the verdict's exit code and holds what was delivered. */
  lemma {:induction false} FinalBufferHolds(b: Buffer, max: nat, e: Engine)
    requires b == EMPTY
    ensures var final := FinalBuffer(b, max, e);
            final.complete && final.exitCode == Some(Verdict(e).1) && Holds(final, max, Delivered(e))
  {
    hide CapturedUpTo, TaggedUpTo;
    assert Holds(b, max, []);
    CapturedUpToHolds(b, max, [], e.chunks, |e.chunks|);
    assert [] + TaggedUpTo(e.chunks, |e.chunks|) == TaggedUpTo(e.chunks, |e.chunks|);
  }

  lemma VerdictIs(e: Engine)
    ensures var v, up := Verdict(e), e.chmodOk && e.createOk && e.startOk;
            && (v.0 == Completed <==> up && e.wait == Some(0))
            && (v.0 == TimedOut <==> up && e.wait.None? && e.stopOk)
            && (v.0 == Failed <==> v.0 != Completed && v.0 != TimedOut)
            && v.1 == if up && e.wait.Some? then e.wait.value else -1
  {
  }

  lemma DeliveredWithinBudget(b: Buffer, max: nat, e: Engine)
    requires Holds(b, max, Delivered(e))
    ensures var chunks := if e.chmodOk && e.createOk && e.startOk && (e.wait.Some? || e.stopOk) then e.chunks else [];
            var out, err := BytesOf(chunks, Stdout, |chunks|), BytesOf(chunks, Stderr, |chunks|);
            && (b.truncated <==> |out| + |err| > max)
            && (!b.truncated ==> b.stdout == out && b.stderr == err)
  {
    WithinBudget(b, max, if Joined(e) then e.chunks else []);
    assert TaggedUpTo([], 0) == [];
  }

  function NameOf(s: Stream): string {
    match s
    case Stdout => "stdout"
    case Stderr => "stderr"
  }

  lemma {:induction false} RunAppend(c: Config, s: State, steps: seq<Lifecycle.Step>, step: Lifecycle.Step)
    ensures RunAll(c, s, steps + [step]) == Apply(c, RunAll(c, s, steps), step)
    decreases |steps|
  {
    if steps == [] {
      assert [step][1..] == [];
    } else {
      assert (steps + [step])[1..] == steps[1..] + [step];
      RunAppend(c, Apply(c, s, steps[0]), steps[1..], step);
    }
  }

  /** Steps of one worker and of its log threads. */
  predicate OwnStep(step: Lifecycle.Step, id: Id) {
    (step.Work? && step.id == id) || (step.Log? && step.id == id)
  }

  /** `steps` are this worker's own and lead from `s0` to `s`. */
  ghost predicate Trace(c: Config, s0: State, s: State, steps: seq<Lifecycle.Step>, id: Id) {
    s == RunAll(c, s0, steps) && forall k :: 0 <= k < |steps| ==> OwnStep(steps[k], id)
  }

  lemma Next(c: Config, s0: State, s: State, steps: seq<Lifecycle.Step>, id: Id, step: Lifecycle.Step)
    requires Trace(c, s0, s, steps, id) && OwnStep(step, id)
    ensures Trace(c, s0, Apply(c, s, step), steps + [step], id)
  {
    RunAppend(c, s0, steps, step);
  }

  lemma NextWork(c: Config, s0: State, s: State, steps: seq<Lifecycle.Step>, id: Id, outcome: Outcome, now: Time)
    requires Trace(c, s0, s, steps, id)
    ensures Trace(c, s0, ApplyWork(s, id, outcome, now), steps + [Work(id, outcome, now)], id)
  {
    hide Trace, ApplyWork;
    Next(c, s0, s, steps, id, Work(id, outcome, now));
  }

  lemma FirstStep(c: Config, s0: State, id: Id, step: Lifecycle.Step)
    requires OwnStep(step, id)
    ensures Trace(c, s0, Apply(c, s0, step), [step], id)
  {
  }

  /** The steps that create, track and start the container, which change the phase and one set. */
  lemma LaunchStep(s: State, id: Id, outcome: Outcome)
    requires At(s, id, Started) || At(s, id, ContainerMade) || At(s, id, Tracked)
    ensures var t := ApplyWork(s, id, outcome, 0);
            && t.mgr == s.mgr && t.trail == s.trail && t.bufs == s.bufs
            && (At(s, id, Started) ==>
                  t.containers == s.containers && At(t, id, if outcome.Fine? then ContainerMade else Raised))
            && (At(s, id, ContainerMade) ==> t.containers == s.containers + {id} && At(t, id, Tracked))
            && (At(s, id, Tracked) ==>
                  && t.containers == s.containers && id in t.streams
                  && At(t, id, if outcome.Fine? then Waiting else Raised))
  {
  }

  lemma MarkStep(s: State, id: Id, code: int)
    requires At(s, id, Exited(code)) || (code == -1 && (At(s, id, Stopped) || At(s, id, Raised)))
    ensures var t := ApplyWork(s, id, Fine, 0);
            && t.mgr == s.mgr && t.trail == s.trail && t.containers == s.containers
            && t.bufs == (if id in s.bufs then s.bufs[id := MarkComplete(s.bufs[id], code)] else s.bufs)
            && (At(s, id, Exited(code)) ==> At(t, id, if id in s.bufs then Marked(ExitStatus(code), code) else Raised))
            && (At(s, id, Stopped) ==> At(t, id, if id in s.bufs then Marked(TimedOut, -1) else Raised))
            && (At(s, id, Raised) ==> At(t, id, Marked(Failed, -1)))
  {
  }

  class Executor {
    const manager: ExecutionManager
    const collector: OutputCollector
    var active: set<Id>

    constructor (manager: ExecutionManager, collector: OutputCollector)
      ensures this.manager == manager && this.collector == collector && active == {}
    {
      this.manager, this.collector, active := manager, collector, {};
    }

    /** The tables hold what state `s` of the step system says. */
    ghost predicate Shows(s: State)
      reads this, manager, manager.executions.Values, collector, collector.outputs.Values
    {
      && manager.Valid() && collector.Valid()
      && manager.View() == s.mgr && collector.View() == s.bufs && active == s.containers
      && s.mgr.recs.Keys <= s.trail.Keys
    }

    /** The record shows this final status and exit code. */
    ghost predicate Ends(id: Id, status: ExecStatus, code: int)
      reads manager, manager.executions.Values
    {
      id in manager.executions && manager.executions[id].status == status
      && manager.executions[id].exitCode == Some(code)
    }

    /** The record, or null; the view of the table is not changed by reading it. */
    method Fetch(id: Id, ghost s: State) returns (record: ExecutionRecord?, ghost t: State)
      requires Shows(s) && At(s, id, Spawned)
      ensures t == ApplyWork(s, id, Fine, 0) && Shows(t) && At(t, id, if record != null then Fetched else Ending)
      ensures t.bufs == s.bufs && (record != null <==> id in manager.executions)
    {
      record := manager.GetExecution(id);
      t := ApplyWork(s, id, Fine, 0);
      assert id in manager.executions <==> id in manager.Recs();
    }

    method CreateBuffer(id: Id, ghost s: State) returns (ghost t: State)
      requires Shows(s) && At(s, id, Fetched)
      modifies collector
      ensures t == ApplyWork(s, id, Fine, 0) && Shows(t) && At(t, id, Buffered)
      ensures t.bufs == s.bufs[id := FirstBuffer(s.bufs, id)]
      ensures forall b :: b in collector.outputs.Values && b !in old(collector.outputs).Values ==> fresh(b)
    {
      collector.CreateBuffer(id);
      t := ApplyWork(s, id, Fine, 0);
    }

    method StartRunning(id: Id, now: Time, ghost s: State) returns (ghost t: State)
      requires Shows(s) && At(s, id, Buffered)
      modifies manager, manager.executions.Values
      ensures t == ApplyWork(s, id, Fine, now) && Shows(t) && At(t, id, Started) && t.bufs == s.bufs
      ensures manager.executions == old(manager.executions)
    {
      var found := manager.UpdateStatus(id, Running, None, now);
      t := ApplyWork(s, id, Fine, now);
    }

    method FinishStatus(id: Id, status: ExecStatus, code: int, now: Time, ghost s: State) returns (ghost t: State)
      requires Shows(s) && At(s, id, Marked(status, code)) && status.Terminal()
      modifies manager, manager.executions.Values
      ensures t == ApplyWork(s, id, Fine, now) && Shows(t) && At(t, id, Ending) && t.bufs == s.bufs
      ensures id in manager.executions ==> Ends(id, status, code)
      ensures manager.executions == old(manager.executions)
    {
      var found := manager.UpdateStatus(id, status, Some(code), now);
      assert found ==> manager.executions[id].Value() == manager.Recs()[id];
      t := ApplyWork(s, id, Fine, now);
    }

    /** `mark_complete`, which raises when there is no buffer. */
    method MarkOutput(id: Id, code: int, ghost s: State) returns (raised: bool, ghost t: State)
      requires Shows(s) && (At(s, id, Exited(code)) || (code == -1 && (At(s, id, Stopped) || At(s, id, Raised))))
      modifies collector.outputs.Values
      ensures t == ApplyWork(s, id, Fine, 0) && Shows(t) && collector.outputs == old(collector.outputs)
      ensures raised <==> id !in s.bufs
      ensures !raised ==> t.bufs == s.bufs[id := MarkComplete(s.bufs[id], code)]
      ensures At(s, id, Exited(code)) ==> At(t, id, if raised then Raised else Marked(ExitStatus(code), code))
      ensures At(s, id, Stopped) ==> At(t, id, if raised then Raised else Marked(TimedOut, -1))
      ensures At(s, id, Raised) ==> At(t, id, Marked(Failed, -1))
    {
      MarkStep(s, id, code);
      hide ApplyWork;
      var r := collector.MarkComplete(id, code);
      raised := r.Failure?;
      t := ApplyWork(s, id, Fine, 0);
    }

    method CaptureChunk(id: Id, chunk: Chunk, ghost c: Config, ghost s: State) returns (ghost t: State)
      requires Shows(s) && id in s.streams && collector.maxSize == c.maxOutput
      modifies collector.outputs.Values
      ensures t == ApplyLog(c, s, id, chunk.stream, chunk.data) && Shows(t) && (id in s.bufs ==> id in t.bufs)
      ensures collector.outputs == old(collector.outputs)
    {
      t := ApplyLog(c, s, id, chunk.stream, chunk.data);
      var r := collector.CaptureOutput(id, NameOf(chunk.stream), chunk.data);
    }

    /** What the two log threads capture before they are joined. */
    method StreamLogs(id: Id, chunks: seq<Chunk>, ghost c: Config, ghost s0: State, ghost s: State,
                      ghost before: seq<Lifecycle.Step>)
      returns (ghost t: State, ghost steps: seq<Lifecycle.Step>)
      requires Shows(s) && id in s.streams && collector.maxSize == c.maxOutput && Trace(c, s0, s, before, id)
      modifies collector.outputs.Values
      ensures Shows(t) && Trace(c, s0, t, steps, id) && t.phases == s.phases
      ensures steps == before + LogSteps(id, chunks, |chunks|)
      ensures id in s.bufs ==> t.bufs == s.bufs[id := CapturedUpTo(s.bufs[id], c.maxOutput, chunks, |chunks|)]
      ensures collector.outputs == old(collector.outputs)
    {
      hide Shows, Trace, RunAll;
      t, steps := s, before;
      for k := 0 to |chunks|
        invariant Shows(t) && Trace(c, s0, t, steps, id) && t.phases == s.phases && t.streams == s.streams
        invariant steps == before + LogSteps(id, chunks, k)
        invariant id in s.bufs ==> t.bufs == s.bufs[id := CapturedUpTo(s.bufs[id], c.maxOutput, chunks, k)]
        invariant collector.outputs == old(collector.outputs)
      {
        var chunk := chunks[k];
        if chunk.data != [] {
          Next(c, s0, t, steps, id, Log(id, chunk.stream, chunk.data));
          t := CaptureChunk(id, chunk, c, t);
          steps := steps + [Log(id, chunk.stream, chunk.data)];
        }
      }
    }

    /** The buffer, then the status. */
    method Prepare(id: Id, now: Time, ghost c: Config, ghost s0: State, ghost s: State,
                   ghost before: seq<Lifecycle.Step>)
      returns (ghost t: State, ghost steps: seq<Lifecycle.Step>)
      requires Shows(s) && At(s, id, Fetched) && Trace(c, s0, s, before, id)
      modifies manager, manager.executions.Values, collector
      ensures Shows(t) && Trace(c, s0, t, steps, id) && At(t, id, Started)
      ensures t.bufs == s.bufs[id := FirstBuffer(s.bufs, id)]
      ensures manager.executions == old(manager.executions)
      ensures forall b :: b in collector.outputs.Values && b !in old(collector.outputs).Values ==> fresh(b)
    {
      hide Shows, Trace, ApplyWork, Ends;
      NextWork(c, s0, s, before, id, Fine, 0);
      t := CreateBuffer(id, s);
      steps := before + [Work(id, Fine, 0)];
      NextWork(c, s0, t, steps, id, Fine, now);
      t := StartRunning(id, now, t);
      steps := steps + [Work(id, Fine, now)];
    }

    /** `chmod`, creating, tracking and starting the container; each may raise. */
    method StartContainer(id: Id, e: Engine, ghost c: Config, ghost s0: State, ghost s: State,
                          ghost before: seq<Lifecycle.Step>)
      returns (raised: bool, ghost t: State, ghost steps: seq<Lifecycle.Step>)
      requires Shows(s) && At(s, id, Started) && Trace(c, s0, s, before, id)
      modifies `active
      ensures Shows(t) && Trace(c, s0, t, steps, id) && At(t, id, if raised then Raised else Waiting)
      ensures !raised ==> id in t.streams
      ensures t.bufs == s.bufs
      ensures raised <==> !Launched(e)
    {
      hide ApplyWork, Trace;
      ghost var made := if e.chmodOk && e.createOk then Fine else Raises;
      LaunchStep(s, id, made);
      NextWork(c, s0, s, before, id, made, 0);
      t, steps := ApplyWork(s, id, made, 0), before + [Work(id, made, 0)];
      if !(e.chmodOk && e.createOk) {
        return true, t, steps;
      }
      NextWork(c, s0, t, steps, id, Fine, 0);
      LaunchStep(t, id, Fine);
      t, steps := ApplyWork(t, id, Fine, 0), steps + [Work(id, Fine, 0)];
      active := active + {id};
      ghost var up := if e.startOk then Fine else Raises;
      NextWork(c, s0, t, steps, id, up, 0);
      LaunchStep(t, id, up);
      t, steps := ApplyWork(t, id, up, 0), steps + [Work(id, up, 0)];
      return !e.startOk, t, steps;
    }

    /** `container.wait`, and stopping the container when that fails. */
    method WaitOrStop(id: Id, e: Engine, ghost c: Config, ghost s0: State, ghost s: State,
                      ghost before: seq<Lifecycle.Step>)
      returns (raised: bool, status: ExecStatus, code: int, ghost t: State, ghost steps: seq<Lifecycle.Step>)
      requires Shows(s) && At(s, id, Waiting) && Trace(c, s0, s, before, id)
      ensures Shows(t) && Trace(c, s0, t, steps, id) && t.streams == s.streams && t.bufs == s.bufs
      ensures At(t, id, if raised then Raised else if e.wait.Some? then Exited(code) else Stopped)
      ensures Launched(e) ==> Verdict(e) == (status, code)
      ensures status.Terminal() && (raised ==> (status, code) == (Failed, -1))
      ensures e.wait.Some? ==> status == ExitStatus(code)
      ensures e.wait.None? && !raised ==> (status, code) == (TimedOut, -1)
      ensures raised <==> e.wait.None? && !e.stopOk
    {
      ghost var o := if e.wait.Some? then Exits(e.wait.value) else Raises;
      NextWork(c, s0, s, before, id, o, 0);
      t, steps := ApplyWork(s, id, o, 0), before + [Work(id, o, 0)];
      if e.wait.Some? {
        return false, ExitStatus(e.wait.value), e.wait.value, t, steps;
      }
      ghost var stopped := if e.stopOk then Fine else Raises;
      NextWork(c, s0, t, steps, id, stopped, 0);
      t, steps := ApplyWork(t, id, stopped, 0), steps + [Work(id, stopped, 0)];
      return !e.stopOk, if e.stopOk then TimedOut else Failed, -1, t, steps;
    }

    method JoinAndMark(id: Id, chunks: seq<Chunk>, code: int, ghost c: Config, ghost s0: State, ghost s: State,
                       ghost before: seq<Lifecycle.Step>)
      returns (raised: bool, ghost t: State, ghost steps: seq<Lifecycle.Step>)
      requires Shows(s) && (At(s, id, Exited(code)) || (code == -1 && At(s, id, Stopped)))
      requires id in s.streams && Trace(c, s0, s, before, id) && collector.maxSize == c.maxOutput
      modifies collector.outputs.Values
      ensures Shows(t) && Trace(c, s0, t, steps, id) && collector.outputs == old(collector.outputs)
      ensures id in s.bufs ==>
          !raised
          && t.bufs == s.bufs[id := MarkComplete(CapturedUpTo(s.bufs[id], c.maxOutput, chunks, |chunks|), code)]
      ensures At(s, id, Exited(code)) ==> At(t, id, if raised then Raised else Marked(ExitStatus(code), code))
      ensures At(s, id, Stopped) ==> At(t, id, if raised then Raised else Marked(TimedOut, -1))
    {
      hide Shows, Trace, ApplyWork, ExitStatus, CapturedUpTo, MarkComplete;
      t, steps := StreamLogs(id, chunks, c, s0, s, before);
      NextWork(c, s0, t, steps, id, Fine, 0);
      raised, t := MarkOutput(id, code, t);
      steps := steps + [Work(id, Fine, 0)];
    }

    /** Waiting, joining the log threads, and marking the output. */
    method Await(id: Id, e: Engine, ghost c: Config, ghost s0: State, ghost s: State, ghost before: seq<Lifecycle.Step>)
      returns (raised: bool, status: ExecStatus, code: int, ghost t: State, ghost steps: seq<Lifecycle.Step>)
      requires Shows(s) && At(s, id, Waiting) && id in s.streams && Trace(c, s0, s, before, id)
      requires collector.maxSize == c.maxOutput
      modifies collector.outputs.Values
      ensures Shows(t) && Trace(c, s0, t, steps, id) && collector.outputs == old(collector.outputs)
      ensures At(t, id, if raised then Raised else Marked(status, code))
      ensures id in s.bufs && Launched(e) ==>
          Verdict(e) == if raised then (Failed, -1) else (status, code)
      ensures status.Terminal()
      ensures id in s.bufs && Launched(e) ==>
          && raised == !Joined(e)
          && t.bufs == if raised then s.bufs else s.bufs[id := FinalBuffer(s.bufs[id], c.maxOutput, e)]
    {
      hide Shows, Trace, ApplyWork, Verdict, ExitStatus, CapturedUpTo, MarkComplete;
      raised, status, code, t, steps := WaitOrStop(id, e, c, s0, s, before);
      if raised {
        return;
      }
      raised, t, steps := JoinAndMark(id, e.chunks, code, c, s0, t, steps);
    }

    method Launch(id: Id, e: Engine, now: Time, ghost c: Config, ghost s0: State, ghost s: State,
                  ghost before: seq<Lifecycle.Step>)
      returns (raised: bool, ghost t: State, ghost steps: seq<Lifecycle.Step>)
      requires Shows(s) && At(s, id, Fetched) && Trace(c, s0, s, before, id)
      modifies `active, manager, manager.executions.Values, collector
      ensures Shows(t) && Trace(c, s0, t, steps, id) && At(t, id, if raised then Raised else Waiting)
      ensures !raised ==> id in t.streams
      ensures t.bufs == s.bufs[id := FirstBuffer(s.bufs, id)]
      ensures raised <==> !Launched(e)
      ensures manager.executions == old(manager.executions)
      ensures forall b :: b in collector.outputs.Values && b !in old(collector.outputs).Values ==> fresh(b)
    {
      hide Shows, Trace, ApplyWork, Ends, FinalBuffer;
      t, steps := Prepare(id, now, c, s0, s, before);
      raised, t, steps := StartContainer(id, e, c, s0, t, steps);
    }

    method Conclude(id: Id, e: Engine, now: Time, ghost c: Config, ghost s0: State, ghost s: State,
                    ghost before: seq<Lifecycle.Step>)
      returns (raised: bool, ghost t: State, ghost steps: seq<Lifecycle.Step>)
      requires Shows(s) && At(s, id, Waiting) && id in s.streams && id in s.bufs && Trace(c, s0, s, before, id)
      requires collector.maxSize == c.maxOutput && Launched(e)
      modifies manager, manager.executions.Values, collector.outputs.Values
      ensures Shows(t) && Trace(c, s0, t, steps, id) && At(t, id, if raised then Raised else Ending)
      ensures id in manager.executions ==>
          if raised then Verdict(e) == (Failed, -1) else Ends(id, Verdict(e).0, Verdict(e).1)
      ensures raised == !Joined(e)
      ensures t.bufs == if raised then s.bufs else s.bufs[id := FinalBuffer(s.bufs[id], c.maxOutput, e)]
      ensures manager.executions == old(manager.executions) && collector.outputs == old(collector.outputs)
    {
      hide Shows, Trace, ApplyWork, Ends, FinalBuffer;
      var status, code;
      raised, status, code, t, steps := Await(id, e, c, s0, s, before);
      if raised {
        return;
      }
      NextWork(c, s0, t, steps, id, Fine, now);
      t := FinishStatus(id, status, code, now, t);
      steps := steps + [Work(id, Fine, now)];
    }

    /** The `try` block after the record was found. */
    method TryBlock(id: Id, e: Engine, startedAt: Time, endedAt: Time, ghost c: Config, ghost s0: State, ghost s: State,
                    ghost before: seq<Lifecycle.Step>)
      returns (raised: bool, ghost t: State, ghost steps: seq<Lifecycle.Step>)
      requires Shows(s) && At(s, id, Fetched) && Trace(c, s0, s, before, id) && collector.maxSize == c.maxOutput
      modifies `active, manager, manager.executions.Values, collector, collector.outputs.Values
      ensures Shows(t) && Trace(c, s0, t, steps, id) && At(t, id, if raised then Raised else Ending)
      ensures id in manager.executions ==>
          if raised then Verdict(e) == (Failed, -1) else Ends(id, Verdict(e).0, Verdict(e).1)
      ensures raised == !Joined(e)
      ensures var b := FirstBuffer(s.bufs, id);
              t.bufs == s.bufs[id := if raised then b else FinalBuffer(b, c.maxOutput, e)]
      ensures manager.executions == old(manager.executions)
      ensures forall b :: b in collector.outputs.Values && b !in old(collector.outputs).Values ==> fresh(b)
    {
      hide Shows, Trace, ApplyWork, Ends, FinalBuffer;
      raised, t, steps := Launch(id, e, startedAt, c, s0, s, before);
      if !raised {
        raised, t, steps := Conclude(id, e, endedAt, c, s0, t, steps);
      }
    }

    /** The `except` block: a missing buffer is ignored. */
    method HandleException(id: Id, now: Time, ghost c: Config, ghost s0: State, ghost s: State,
                           ghost before: seq<Lifecycle.Step>)
      returns (ghost t: State, ghost steps: seq<Lifecycle.Step>)
      requires Shows(s) && At(s, id, Raised) && Trace(c, s0, s, before, id)
      modifies manager, manager.executions.Values, collector.outputs.Values
      ensures Shows(t) && Trace(c, s0, t, steps, id) && At(t, id, Ending)
      ensures manager.executions == old(manager.executions) && (id in manager.executions ==> Ends(id, Failed, -1))
      ensures id in s.bufs ==> t.bufs == s.bufs[id := MarkComplete(s.bufs[id], -1)]
    {
      hide Shows, Trace, ApplyWork, Ends, FinalBuffer;
      NextWork(c, s0, s, before, id, Fine, 0);
      var ignored;
      ignored, t := MarkOutput(id, -1, s);
      steps := before + [Work(id, Fine, 0)];
      NextWork(c, s0, t, steps, id, Fine, now);
      t := FinishStatus(id, Failed, -1, now, t);
      steps := steps + [Work(id, Fine, now)];
    }

    method ExecuteFound(id: Id, e: Engine, startedAt: Time, endedAt: Time, ghost c: Config, ghost s0: State,
                        ghost s: State, ghost before: seq<Lifecycle.Step>)
      returns (ghost t: State, ghost steps: seq<Lifecycle.Step>)
      requires Shows(s) && At(s, id, Fetched) && Trace(c, s0, s, before, id) && collector.maxSize == c.maxOutput
      modifies `active, manager, manager.executions.Values, collector, collector.outputs.Values
      ensures Shows(t) && Trace(c, s0, t, steps, id) && At(t, id, Ending)
      ensures manager.executions == old(manager.executions)
      ensures t.bufs == s.bufs[id := FinalBuffer(FirstBuffer(s.bufs, id), c.maxOutput, e)]
      ensures id in manager.executions ==> Ends(id, Verdict(e).0, Verdict(e).1)
    {
      hide Shows, Trace, ApplyWork, Ends, CapturedUpTo, MarkComplete;
      var raised;
      raised, t, steps := TryBlock(id, e, startedAt, endedAt, c, s0, s, before);
      if raised {
        t, steps := HandleException(id, endedAt, c, s0, t, steps);
      }
    }

    /** The `try` statement without its `finally`: a missing record ends it at once. */
    method TryStatement(id: Id, e: Engine, startedAt: Time, endedAt: Time, ghost c: Config, ghost s0: State)
      returns (ghost t: State, ghost steps: seq<Lifecycle.Step>)
      requires Shows(s0) && At(s0, id, Spawned) && collector.maxSize == c.maxOutput
      modifies `active, manager, manager.executions.Values, collector, collector.outputs.Values
      ensures Shows(t) && Trace(c, s0, t, steps, id) && At(t, id, Ending)
      ensures manager.executions == old(manager.executions)
      ensures id in manager.executions ==>
          t.bufs == s0.bufs[id := FinalBuffer(FirstBuffer(s0.bufs, id), c.maxOutput, e)]
      ensures id !in manager.executions ==> t.bufs == s0.bufs
      ensures id in manager.executions ==> Ends(id, Verdict(e).0, Verdict(e).1)
    {
      hide Shows, Trace, ApplyWork, Ends, FinalBuffer;
      FirstStep(c, s0, id, Work(id, Fine, 0));
      var record;
      record, t := Fetch(id, s0);
      steps := [Work(id, Fine, 0)];
      if record != null {
        t, steps := ExecuteFound(id, e, startedAt, endedAt, c, s0, t, steps);
      }
    }

    /** The `finally` block. */
    method CleanUp(id: Id, ghost c: Config, ghost s0: State, ghost s: State, ghost before: seq<Lifecycle.Step>)
      returns (ghost t: State, ghost steps: seq<Lifecycle.Step>)
      requires Shows(s) && At(s, id, Ending) && Trace(c, s0, s, before, id)
      modifies `active
      ensures Shows(t) && Trace(c, s0, t, steps, id) && At(t, id, Done) && t.bufs == s.bufs
    {
      NextWork(c, s0, s, before, id, Fine, 0);
      active := active - {id};
      t, steps := ApplyWork(s, id, Fine, 0), before + [Work(id, Fine, 0)];
    }

    /**
     * `_execute_in_container`, run without interference: whatever the engine does, the tables
     * end where a schedule of this worker's own steps takes them, with the worker done, the
     * record showing the verdict on what the engine did, and the buffer complete and holding
     * what the container delivered, up to the budget.
     */
    method ExecuteInContainer(id: Id, e: Engine, startedAt: Time, endedAt: Time, ghost c: Config, ghost s0: State)
      returns (ghost t: State, ghost steps: seq<Lifecycle.Step>)
      requires Shows(s0) && At(s0, id, Spawned) && collector.maxSize == c.maxOutput
      modifies `active, manager, manager.executions.Values, collector, collector.outputs.Values
      ensures Shows(t) && Trace(c, s0, t, steps, id) && At(t, id, Done)
      ensures manager.executions == old(manager.executions)
      ensures id in manager.executions ==> Ends(id, Verdict(e).0, Verdict(e).1)
      ensures id !in manager.executions ==> t.bufs == s0.bufs
      ensures id in manager.executions && id !in s0.bufs ==>
          && t.bufs.Keys == s0.bufs.Keys + {id} && (forall j :: j in s0.bufs ==> t.bufs[j] == s0.bufs[j])
          && t.bufs[id].complete && t.bufs[id].exitCode == Some(Verdict(e).1)
          && Holds(t.bufs[id], c.maxOutput, Delivered(e))
      ensures id in manager.executions ==>
          var r, up := manager.executions[id], e.chmodOk && e.createOk && e.startOk;
          && (r.status == Completed <==> up && e.wait == Some(0))
          && (r.status == TimedOut <==> up && e.wait.None? && e.stopOk)
          && (r.status == Failed <==> r.status != Completed && r.status != TimedOut)
          && r.exitCode == Some(if up && e.wait.Some? then e.wait.value else -1)
      ensures id in manager.executions && id !in s0.bufs ==>
          var b, up := t.bufs[id], e.chmodOk && e.createOk && e.startOk;
          var chunks := if up && (e.wait.Some? || e.stopOk) then e.chunks else [];
          var out, err := BytesOf(chunks, Stdout, |chunks|), BytesOf(chunks, Stderr, |chunks|);
          && (b.truncated <==> |out| + |err| > c.maxOutput)
          && (!b.truncated ==> b.stdout == out && b.stderr == err)
          && b.exitCode == Some(if up && e.wait.Some? then e.wait.value else -1)
    {
      hide Shows, Trace, ApplyWork, FinalBuffer, Verdict, Delivered, Holds, BytesOf;
      t, steps := TryStatement(id, e, startedAt, endedAt, c, s0);
      t, steps := CleanUp(id, c, s0, t, steps);
      FinalBufferHolds(EMPTY, c.maxOutput, e);
      VerdictIs(e);
      if id in manager.executions && id !in s0.bufs {
        DeliveredWithinBudget(t.bufs[id], c.maxOutput, e);
      }
    }
  }
}
