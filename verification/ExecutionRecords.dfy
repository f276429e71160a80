/**
 * Execution records and metrics as values: what each lock-protected section of the
 * execution manager does to the record table, the counters and the stored durations.
 */
module ExecutionRecords {
  import opened Prelude

  /** Microseconds on one clock. */
  type Time = int

  datatype ExecStatus = Queued | Running | Completed | Failed | TimedOut
  {
    predicate Terminal() {
      this != Queued && this != Running
    }
  }

  datatype Rec = Rec(status: ExecStatus, startedAt: Option<Time>, completedAt: Option<Time>, exitCode: Option<int>)

  const NEW := Rec(Queued, None, None, None)

  const MAX_DURATIONS := 10000

  datatype Manager = Manager(recs: map<Id, Rec>, total: nat, ok: nat, failed: nat, durations: seq<int>)

  const NOTHING := Manager(map[], 0, 0, 0, [])

  /** The queued and running records. */
  function ActiveIds(recs: map<Id, Rec>): set<Id> {
    set id | id in recs && !recs[id].status.Terminal()
  }

  /** `deque(maxlen=10000).append` */
  function Push(durations: seq<int>, d: int): seq<int> {
    (if |durations| >= MAX_DURATIONS then durations[|durations| - MAX_DURATIONS + 1..] else durations) + [d]
  }

  /** The locked section of `try_create_execution`. */
  function Create(m: Manager, id: Id): Manager {
    m.(recs := m.recs[id := NEW], total := m.total + 1)
  }

  function Updated(r: Rec, status: ExecStatus, exitCode: Option<int>, now: Time): Rec {
    Rec(status,
        if status == Running && r.startedAt.None? then Some(now) else r.startedAt,
        if status.Terminal() && r.completedAt.None? then Some(now) else r.completedAt,
        if status.Terminal() && exitCode.Some? then exitCode else r.exitCode)
  }

  /** The locked section of `update_status` for a record that exists. */
  function Update(m: Manager, id: Id, status: ExecStatus, exitCode: Option<int>, now: Time): Manager
    requires id in m.recs
  {
    var r := Updated(m.recs[id], status, exitCode, now);
    Manager(
      m.recs[id := r],
      m.total,
      if status == Completed then m.ok + 1 else m.ok,
      if status == Failed || status == TimedOut then m.failed + 1 else m.failed,
      if status.Terminal() && r.startedAt.Some? && r.completedAt.Some?
      then Push(m.durations, r.completedAt.value - r.startedAt.value) else m.durations)
  }

  predicate IsExpired(r: Rec, cutoff: Time) {
    r.status.Terminal() && r.completedAt.Some? && r.completedAt.value < cutoff
  }

  function ExpiredIds(recs: map<Id, Rec>, cutoff: Time): set<Id> {
    set id | id in recs && IsExpired(recs[id], cutoff)
  }

  function Elements(ids: seq<Id>): set<Id> {
    set i | 0 <= i < |ids| :: ids[i]
  }

  /** The locked section of `cleanup_expired`. */
  function DropExpired(m: Manager, cutoff: Time): Manager {
    m.(recs := m.recs - ExpiredIds(m.recs, cutoff))
  }

  function Sum(durations: seq<int>): int {
    if durations == [] then 0 else Sum(durations[..|durations| - 1]) + durations[|durations| - 1]
  }

  /** The newest value comes last; with 10000 values stored the oldest one goes. */
  lemma PushKeeps(durations: seq<int>, d: int)
    requires |durations| <= 10000
    ensures Push(durations, d) == if |durations| < 10000 then durations + [d] else durations[1..] + [d]
  {
  }

  lemma {:induction false} SumSplits(a: seq<int>, b: seq<int>)
    ensures Sum(a + b) == Sum(a) + Sum(b)
    ensures forall d :: Sum([d]) == d
  {
    if b == [] {
      assert a + b == a;
    } else {
      assert (a + b)[..|a + b| - 1] == a + b[..|b| - 1];
      SumSplits(a, b[..|b| - 1]);
    }
  }
}
