/**
 * The execution lifecycle as a step system. Request handlers, one worker thread per
 * execution, log-streaming threads and the periodic cleanup share the record table, the
 * output buffers, the encryption contexts and the table of active containers. Each section
 * under a lock is one step; a schedule is any sequence of steps.
 */
module Lifecycle {
  import opened Prelude
  import opened ExecutionRecords
  import opened OutputStreams

  datatype Config = Config(maxConcurrent: nat, maxOutput: nat)

  /** How far the thread that owns an execution has come: its handler, then its worker. */
  datatype Phase =
    | Created
    | Attested
    | Stored
    | GaveUp
    | Spawned
    | Fetched
    | Buffered
    | Started
    | ContainerMade
    | Tracked
    | Waiting
    | WaitFailed
    | Stopped
    | Exited(exitCode: int)
    | Raised
    | Marked(status: ExecStatus, code: int)
    | Ending
    | Done

  /** One running `cleanup_expired`: the contexts and buffers it still has to remove. */
  datatype Cleaning = Cleaning(contexts: seq<Id>, buffers: seq<Id>)

  /** `trail` is a history: every status an execution was ever given, in order. */
  datatype State = State(
    mgr: Manager, bufs: map<Id, Buffer>, contexts: set<Id>, containers: set<Id>, streams: set<Id>,
    phases: map<Id, Phase>, trail: map<Id, seq<ExecStatus>>, cleanups: seq<Cleaning>)

  const INITIAL := State(NOTHING, map[], {}, {}, {}, map[], map[], [])

  /** What the outside does in a worker step: nothing wrong, an exception, or the container's exit code. */
  datatype Outcome = Fine | Raises | Exits(code: int)

  datatype Step =
    | Create(id: Id)
    | Attest(id: Id, ok: bool)
    | StoreContext(id: Id)
    | HandOff(id: Id, ok: bool)
    | Work(id: Id, outcome: Outcome, now: Time)
    | Log(id: Id, stream: Stream, data: seq<Byte>)
    | CleanStart(cutoff: Time, expired: seq<Id>)
    | CleanNext(k: nat)

  function Goto(s: State, id: Id, p: Phase): State {
    s.(phases := s.phases[id := p])
  }

  predicate At(s: State, id: Id, p: Phase) {
    id in s.phases && s.phases[id] == p
  }

  // The handler.

  /** `try_create_execution` with a new id. */
  function ApplyCreate(c: Config, s: State, id: Id): State {
    if id in s.phases || |ActiveIds(s.mgr.recs)| >= c.maxConcurrent then s
    else Goto(s.(mgr := ExecutionRecords.Create(s.mgr, id), trail := s.trail[id := [Queued]]), id, Created)
  }

  function ApplyAttest(s: State, id: Id, ok: bool): State {
    if At(s, id, Created) then Goto(s, id, if ok then Attested else GaveUp) else s
  }

  function ApplyStore(s: State, id: Id): State {
    if At(s, id, Attested) then Goto(s.(contexts := s.contexts + {id}), id, Stored) else s
  }

  /** `execute_async`, or an exception on the way to it. */
  function ApplyHandOff(s: State, id: Id, ok: bool): State {
    if At(s, id, Stored) then Goto(s, id, if ok then Spawned else GaveUp) else s
  }

  // The worker.

  /** `update_status`: nothing happens when the record is gone. */
  function SetStatus(s: State, id: Id, status: ExecStatus, code: Option<int>, now: Time): State {
    if id in s.mgr.recs && id in s.trail then
      s.(mgr := Update(s.mgr, id, status, code, now), trail := s.trail[id := s.trail[id] + [status]])
    else s
  }

  /** `mark_complete` on a buffer that exists; otherwise it raises. */
  function Mark(s: State, id: Id, code: int): State {
    if id in s.bufs then s.(bufs := s.bufs[id := MarkComplete(s.bufs[id], code)]) else s
  }

  function ExitStatus(code: int): ExecStatus {
    if code == 0 then Completed else Failed
  }

  /** The next step of the worker thread. */
  function ApplyWork(s: State, id: Id, outcome: Outcome, now: Time): State {
    if id !in s.phases then s
    else
      match s.phases[id]
      case Spawned => Goto(s, id, if id in s.mgr.recs then Fetched else Ending)
      case Fetched => Goto(if id in s.bufs then s else s.(bufs := s.bufs[id := EMPTY]), id, Buffered)
      case Buffered => Goto(SetStatus(s, id, Running, None, now), id, Started)
      case Started => Goto(s, id, if outcome.Fine? then ContainerMade else Raised)
      case ContainerMade => Goto(s.(containers := s.containers + {id}), id, Tracked)
      // One of the two log threads may already run when starting the other one fails.
      case Tracked => Goto(s.(streams := s.streams + {id}), id, if outcome.Fine? then Waiting else Raised)
      case Waiting => Goto(s, id, if outcome.Exits? then Exited(outcome.code) else WaitFailed)
      case WaitFailed => Goto(s, id, if outcome.Raises? then Raised else Stopped)
      case Stopped => Goto(Mark(s, id, -1), id, if id in s.bufs then Marked(TimedOut, -1) else Raised)
      case Exited(code) => Goto(Mark(s, id, code), id, if id in s.bufs then Marked(ExitStatus(code), code) else Raised)
      case Raised => Goto(Mark(s, id, -1), id, Marked(Failed, -1))
      case Marked(status, code) => Goto(SetStatus(s, id, status, Some(code), now), id, Ending)
      case Ending => Goto(s.(containers := s.containers - {id}), id, Done)
      case _ => s
  }

  /** A log-streaming thread hands over a chunk; it may outlive its worker. */
  function ApplyLog(c: Config, s: State, id: Id, stream: Stream, data: seq<Byte>): State {
    if id in s.streams && id in s.bufs then
      s.(bufs := s.bufs[id := Capture(s.bufs[id], c.maxOutput, stream, data)])
    else s
  }

  // The cleanup.

  /** The section under the manager's lock; `expired` lists the ids in the order the loop found them. */
  function ApplyCleanStart(s: State, cutoff: Time, expired: seq<Id>): State {
    if Elements(expired) == ExpiredIds(s.mgr.recs, cutoff) then
      s.(mgr := DropExpired(s.mgr, cutoff), cleanups := s.cleanups + [Cleaning(expired, expired)])
    else s
  }

  /** The next removal: all contexts first, then all buffers. */
  function ApplyCleanNext(s: State, k: nat): State {
    if k >= |s.cleanups| then s
    else
      var q := s.cleanups[k];
      if q.contexts != [] then
        s.(contexts := s.contexts - {q.contexts[0]},
           cleanups := s.cleanups[k := q.(contexts := q.contexts[1..])])
      else if q.buffers != [] then
        s.(bufs := s.bufs - {q.buffers[0]},
           cleanups := s.cleanups[k := q.(buffers := q.buffers[1..])])
      else s
  }

  /** One step of any thread; a step that is not enabled changes nothing. */
  function Apply(c: Config, s: State, step: Step): State {
    match step
    case Create(id) => ApplyCreate(c, s, id)
    case Attest(id, ok) => ApplyAttest(s, id, ok)
    case StoreContext(id) => ApplyStore(s, id)
    case HandOff(id, ok) => ApplyHandOff(s, id, ok)
    case Work(id, outcome, now) => ApplyWork(s, id, outcome, now)
    case Log(id, stream, data) => ApplyLog(c, s, id, stream, data)
    case CleanStart(cutoff, expired) => ApplyCleanStart(s, cutoff, expired)
    case CleanNext(k) => ApplyCleanNext(s, k)
  }

  function RunAll(c: Config, s: State, steps: seq<Step>): State
    decreases |steps|
  {
    if steps == [] then s else RunAll(c, Apply(c, s, steps[0]), steps[1..])
  }
}
