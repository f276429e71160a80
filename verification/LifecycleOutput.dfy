/** Under every interleaving a buffer holds what its log threads handed over. */
module LifecycleOutput {
  import opened Prelude
  import opened ExecutionRecords
  import opened OutputStreams
  import opened Lifecycle
  import opened LifecycleInvariant
  import opened LifecycleTheorems

  /** The bytes one step hands to the buffer of `id`. */
  function OfferedBy(s: State, step: Lifecycle.Step, id: Id): seq<Tagged> {
    if step.Log? && step.id == id && id in s.streams && id in s.bufs then Tag(step.stream, step.data) else []
  }

  /** All bytes a schedule hands to the buffer of `id`, in the order of its steps. */
  function Offered(c: Config, s: State, steps: seq<Lifecycle.Step>, id: Id): seq<Tagged>
    decreases |steps|
  {
    if steps == [] then [] else OfferedBy(s, steps[0], id) + Offered(c, Apply(c, s, steps[0]), steps[1..], id)
  }

  /** The buffer holds this log; without a buffer nothing was offered yet, or the execution is over. */
  ghost predicate Faithful(c: Config, s: State, id: Id, log: seq<Tagged>) {
    if id in s.bufs then Holds(s.bufs[id], c.maxOutput, log)
    else log == [] || (id in s.phases && Over(s.phases[id]))
  }

  lemma EmptyHolds(max: nat)
    ensures Holds(EMPTY, max, [])
  {
  }

  lemma WorkFaithful(c: Config, s: State, w: Id, outcome: Outcome, now: Time, id: Id, log: seq<Tagged>)
    requires Inv(c, s) && Faithful(c, s, id, log)
    ensures Faithful(c, ApplyWork(s, w, outcome, now), id, log)
  {
    InvKeys(c, s);
    hide Inv, Holds, ApplyWork, WorkLocal;
    if w in s.phases {
      var t := ApplyWork(s, w, outcome, now);
      WorkIsLocal(s, w, outcome, now);
      if w == id {
        OwnWorkFaithful(c, LocalOf(s, id), outcome, now, log);
        assert LocalOf(t, id) == WorkLocal(LocalOf(s, id), outcome, now);
      } else if id in s.phases {
        assert LocalOf(t, id) == LocalOf(s, id);
      } else {
        assert id !in t.phases;
      }
    }
  }

  ghost predicate LocalFaithful(c: Config, l: Local, log: seq<Tagged>) {
    if l.buf.Some? then Holds(l.buf.value, c.maxOutput, log) else log == [] || Over(l.phase)
  }

  /** Both have no buffer, or both have one with the same bytes and the same truncation flag. */
  predicate SameBytes(l: Local, r: Local) {
    && r.buf.Some? == l.buf.Some?
    && (l.buf.Some? ==>
          && r.buf.value.stdout == l.buf.value.stdout && r.buf.value.stderr == l.buf.value.stderr
          && r.buf.value.truncated == l.buf.value.truncated)
  }

  lemma MarkKeepsBytes(l: Local, code: int)
    ensures SameBytes(l, MarkLocal(l, code))
  {
  }

  lemma StatusKeepsBytes(l: Local, status: ExecStatus, code: Option<int>, now: Time)
    ensures SameBytes(l, SetLocal(l, status, code, now))
  {
  }

  /** A worker creates its buffer once, empty, and never changes what it holds. */
  lemma WorkKeepsBytes(l: Local, outcome: Outcome, now: Time)
    ensures var r := WorkLocal(l, outcome, now);
            && (SameBytes(l, r) || (l.phase.Fetched? && l.buf.None? && r.buf == Some(EMPTY)))
            && (Over(l.phase) ==> Over(r.phase))
  {
    hide MarkLocal, SetLocal;
    match l.phase
    case Buffered => StatusKeepsBytes(l, Running, None, now);
    case Marked(status, code) => StatusKeepsBytes(l, status, Some(code), now);
    case Exited(code) => MarkKeepsBytes(l, code);
    case Stopped | Raised => MarkKeepsBytes(l, -1);
    case _ =>
  }

  lemma OwnWorkFaithful(c: Config, l: Local, outcome: Outcome, now: Time, log: seq<Tagged>)
    requires LocalFaithful(c, l, log)
    ensures LocalFaithful(c, WorkLocal(l, outcome, now), log)
  {
    WorkKeepsBytes(l, outcome, now);
    EmptyHolds(c.maxOutput);
  }

  lemma CleanNextFaithful(c: Config, s: State, k: nat, id: Id, log: seq<Tagged>)
    requires Inv(c, s) && Faithful(c, s, id, log)
    ensures Faithful(c, ApplyCleanNext(s, k), id, log)
  {
    hide Inv, Holds;
    if k < |s.cleanups| && id in s.bufs {
      var q := s.cleanups[k];
      assert q.buffers != [] ==> BufferDue(s.cleanups, q.buffers[0]);
      assert id in s.phases by { InvKeys(c, s); }
      hide RecordGood, BufferGood, ContextGood, ContainerGood, ContextDue, BufferDue;
      InvAt(c, s, id);
    }
  }

  lemma LogFaithful(c: Config, s: State, w: Id, stream: Stream, data: seq<Byte>, id: Id, log: seq<Tagged>)
    requires Faithful(c, s, id, log)
    ensures Faithful(c, ApplyLog(c, s, w, stream, data), id, log + OfferedBy(s, Log(w, stream, data), id))
  {
    hide Capture, Holds, Tag;
    if w == id && id in s.streams && id in s.bufs {
      CaptureHolds(s.bufs[id], c.maxOutput, log, stream, data);
    } else {
      assert log + [] == log;
    }
  }

  lemma OtherStepsKeepBuffers(c: Config, s: State, step: Lifecycle.Step, id: Id)
    requires !step.Work? && !step.Log? && !step.CleanNext?
    ensures Apply(c, s, step).bufs == s.bufs
    ensures id in s.phases && Over(s.phases[id]) ==> At(Apply(c, s, step), id, s.phases[id])
  {
  }

  lemma OtherStepsFaithful(c: Config, s: State, step: Lifecycle.Step, id: Id, log: seq<Tagged>)
    requires !step.Work? && !step.Log? && !step.CleanNext? && Faithful(c, s, id, log)
    ensures Faithful(c, Apply(c, s, step), id, log)
  {
    hide Apply, Holds, Over;
    OtherStepsKeepBuffers(c, s, step, id);
  }

  lemma StepFaithful(c: Config, s: State, step: Lifecycle.Step, id: Id, log: seq<Tagged>)
    requires Inv(c, s) && Faithful(c, s, id, log)
    ensures Faithful(c, Apply(c, s, step), id, log + OfferedBy(s, step, id))
  {
    hide Inv, Faithful, ApplyWork, ApplyLog, ApplyCleanNext;
    match step
    case Log(w, stream, data) => LogFaithful(c, s, w, stream, data, id, log);
    case _ =>
      assert log + OfferedBy(s, step, id) == log;
      match step {
        case Work(w, outcome, now) => WorkFaithful(c, s, w, outcome, now, id, log);
        case CleanNext(k) => CleanNextFaithful(c, s, k, id, log);
        case _ => OtherStepsFaithful(c, s, step, id, log);
      }
  }

  lemma {:induction false} RunFaithful(c: Config, s: State, steps: seq<Lifecycle.Step>, id: Id, log: seq<Tagged>)
    requires Inv(c, s) && Faithful(c, s, id, log)
    ensures Faithful(c, RunAll(c, s, steps), id, log + Offered(c, s, steps, id))
    decreases |steps|
  {
    if steps == [] {
      assert log + [] == log;
    } else {
      var t, given := Apply(c, s, steps[0]), OfferedBy(s, steps[0], id);
      StepFaithful(c, s, steps[0], id, log);
      StepKeepsInv(c, s, steps[0]);
      RunFaithful(c, t, steps[1..], id, log + given);
      Assoc(log, given, Offered(c, t, steps[1..], id));
    }
  }

  /**
   * For every schedule: a buffer that is still there holds exactly the first bytes, up to the
   * budget, of everything its two log threads handed over, each byte in its own stream.
   */
  lemma {:induction false} BuffersHoldWhatWasOffered(c: Config, steps: seq<Lifecycle.Step>, id: Id)
    requires id in Reach(c, steps).bufs
    ensures Holds(Reach(c, steps).bufs[id], c.maxOutput, Offered(c, INITIAL, steps, id))
  {
    InitialInv(c);
    RunFaithful(c, INITIAL, steps, id, []);
    assert [] + Offered(c, INITIAL, steps, id) == Offered(c, INITIAL, steps, id);
  }
}
