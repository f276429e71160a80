/** The execution manager: records updated in place under its lock, and the shared tables its cleanup empties. */
module ExecutionManagement {
  import opened Prelude
  import opened ExecutionRecords
  import opened OutputStreams
  import opened OutputCollection

  type Key = seq<Byte>

  /** The encryption manager's context table. */
  class EncryptionContexts {
    var contexts: map<Id, Key>

    constructor ()
      ensures contexts == map[]
    {
      contexts := map[];
    }

    method StoreEncryptionContext(id: Id, key: Key)
      modifies this
      ensures contexts == old(contexts)[id := key]
    {
      contexts := contexts[id := key];
    }

    method GetSharedKey(id: Id) returns (key: Option<Key>)
      ensures key == if id in contexts then Some(contexts[id]) else None
    {
      key := if id in contexts then Some(contexts[id]) else None;
    }

    method RemoveEncryptionContext(id: Id)
      modifies this
      ensures contexts == old(contexts) - {id}
    {
      if id in contexts {
        contexts := contexts - {id};
      }
    }
  }

  lemma NoElements(ids: seq<Id>)
    ensures Elements(ids[..0]) == {}
  {
  }

  lemma ElementsNext(ids: seq<Id>, i: nat)
    requires i < |ids|
    ensures Elements(ids[..i + 1]) == Elements(ids[..i]) + {ids[i]}
  {
  }

  method RemoveContexts(encryption: EncryptionContexts, ids: seq<Id>)
    modifies encryption
    ensures encryption.contexts == old(encryption.contexts) - Elements(ids)
  {
    for i := 0 to |ids|
      invariant encryption.contexts == old(encryption.contexts) - Elements(ids[..i])
    {
      ElementsNext(ids, i);
      encryption.RemoveEncryptionContext(ids[i]);
    }
    assert ids[..|ids|] == ids;
  }

  method RemoveOutputs(collector: OutputCollector, ids: seq<Id>)
    requires collector.Valid()
    modifies collector
    ensures collector.Valid() && collector.View() == old(collector.View()) - Elements(ids)
    ensures collector.outputs.Keys == old(collector.outputs).Keys - Elements(ids)
  {
    for i := 0 to |ids|
      invariant collector.Valid() && collector.View() == old(collector.View()) - Elements(ids[..i])
      invariant collector.outputs.Keys == old(collector.outputs).Keys - Elements(ids[..i])
    {
      ElementsNext(ids, i);
      collector.RemoveOutput(ids[i]);
    }
    assert ids[..|ids|] == ids;
  }

  class ExecutionRecord {
    var status: ExecStatus
    var startedAt: Option<Time>
    var completedAt: Option<Time>
    var exitCode: Option<int>

    function Value(): Rec
      reads this
    {
      Rec(status, startedAt, completedAt, exitCode)
    }

    constructor ()
      ensures Value() == NEW
    {
      status, startedAt, completedAt, exitCode := Queued, None, None, None;
    }

    /** The test of `cleanup_expired` on one record. */
    method PastRetention(cutoff: Time) returns (past: bool)
      ensures past == IsExpired(Value(), cutoff)
      ensures past <==> (status == Completed || status == Failed || status == TimedOut)
                        && completedAt.Some? && completedAt.value < cutoff
    {
      past := false;
      if status == Completed || status == Failed || status == TimedOut {
        if completedAt.Some? && completedAt.value < cutoff {
          past := true;
        }
      }
    }

    /** What `update_status` does to the record itself. */
    method Advance(newStatus: ExecStatus, code: Option<int>, now: Time)
      modifies this
      ensures Value() == Updated(old(Value()), newStatus, code, now)
      ensures status == newStatus
      ensures startedAt == if newStatus == Running && old(startedAt).None? then Some(now) else old(startedAt)
      ensures var over := newStatus == Completed || newStatus == Failed || newStatus == TimedOut;
              && completedAt == (if over && old(completedAt).None? then Some(now) else old(completedAt))
              && exitCode == (if over && code.Some? then code else old(exitCode))
    {
      status := newStatus;
      if status == Running && startedAt.None? {
        startedAt := Some(now);
      }
      if status == Completed || status == Failed || status == TimedOut {
        if completedAt.None? {
          completedAt := Some(now);
        }
        if code.Some? {
          exitCode := code;
        }
      }
    }
  }

  lemma CountStep(ids: set<Id>, todo: set<Id>, id: Id)
    requires id in todo
    ensures |ids - (todo - {id})| == |ids - todo| + (if id in ids then 1 else 0)
  {
    assert ids - (todo - {id}) == if id in ids then ids - todo + {id} else ids - todo;
  }

  datatype Metrics = Metrics(total: nat, successful: nat, failed: nat, averageDurationMs: real, active: nat)

  /** `round(x, 2)`: the hundredth nearest to `x`, of two equally near ones the even one. */
  ghost predicate Rounded(x: real, r: real) {
    exists h: int :: r * 100.0 == h as real && IsNearest(x, h)
  }

  predicate IsNearest(x: real, h: int) {
    var d := x * 100.0 - h as real;
    -0.5 <= d <= 0.5 && (d == 0.5 || d == -0.5 ==> h % 2 == 0)
  }

  method RoundToHundredths(x: real) returns (r: real)
    ensures Rounded(x, r)
  {
    var f := (x * 100.0).Floor;
    var d := x * 100.0 - f as real;
    var h := if d < 0.5 || (d == 0.5 && f % 2 == 0) then f else f + 1;
    r := h as real / 100.0;
    assert IsNearest(x, h);
  }

  class ExecutionManager {
    const retention: nat
    const encryption: EncryptionContexts?
    const collector: OutputCollector?
    var executions: map<Id, ExecutionRecord>
    var total: nat
    var successful: nat
    var failed: nat
    var durations: seq<int>

    /** No two ids share a record object. */
    ghost predicate Valid()
      reads this
    {
      forall a, b :: a in executions && b in executions && a != b ==> executions[a] != executions[b]
    }

    ghost function Recs(): map<Id, Rec>
      reads `executions, executions.Values
    {
      map id | id in executions :: executions[id].Value()
    }

    ghost function View(): Manager
      reads this, executions.Values
    {
      Manager(Recs(), total, successful, failed, durations)
    }

    constructor (retention: nat, encryption: EncryptionContexts?, collector: OutputCollector?)
      ensures Valid() && View() == NOTHING
      ensures this.retention == retention && this.encryption == encryption && this.collector == collector
    {
      this.retention, this.encryption, this.collector := retention, encryption, collector;
      executions, total, successful, failed, durations := map[], 0, 0, 0, [];
    }

    lemma ActiveById()
      ensures ActiveIds(Recs())
           == set id | id in executions && (executions[id].status == Queued || executions[id].status == Running)
    {
    }

    /** The generator expression over the records. */
    method CountActive() returns (n: nat)
      ensures n == |ActiveIds(Recs())|
      ensures n == |set id | id in executions && (executions[id].status == Queued || executions[id].status == Running)|
    {
      hide Recs, ActiveIds;
      n := 0;
      ghost var active := ActiveIds(Recs());
      ActiveById();
      var todo := executions.Keys;
      assert active - todo == {};
      while todo != {}
        invariant todo <= executions.Keys && n == |active - todo|
      {
        var id :| id in todo;
        CountStep(active, todo, id);
        if executions[id].status == Queued || executions[id].status == Running {
          n := n + 1;
        }
        todo := todo - {id};
      }
      assert active - todo == active;
      ActiveById();
      assert active
          == set id | id in executions && (executions[id].status == Queued || executions[id].status == Running);
    }

    method TryCreateExecution(id: Id, maxConcurrent: int) returns (record: ExecutionRecord?, accepted: bool)
      requires Valid()
      modifies this
      ensures Valid()
      ensures accepted <==> |ActiveIds(old(Recs()))| < maxConcurrent
      ensures View() == if accepted then Create(old(View()), id) else old(View())
      ensures if accepted then record != null && fresh(record) && executions == old(executions)[id := record]
              else record == null && executions == old(executions)
      ensures accepted ==> record.status == Queued && record.startedAt == record.completedAt == None
                           && record.exitCode == None && total == old(total) + 1
    {
      hide ActiveIds;
      var created := new ExecutionRecord();
      var active := CountActive();
      if active >= maxConcurrent {
        return null, false;
      }
      executions := executions[id := created];
      total := total + 1;
      assert Recs() == old(Recs())[id := NEW];
      hide Recs, ActiveIds;
      return created, true;
    }

    method GetExecution(id: Id) returns (record: ExecutionRecord?)
      ensures record == if id in executions then executions[id] else null
    {
      record := if id in executions then executions[id] else null;
    }

    method UpdateStatus(id: Id, status: ExecStatus, exitCode: Option<int>, now: Time) returns (found: bool)
      requires Valid()
      modifies this, executions.Values
      ensures Valid() && executions == old(executions)
      ensures found <==> id in executions
      ensures View() == if found then Update(old(View()), id, status, exitCode, now) else old(View())
      ensures forall j :: j in executions && j != id ==> executions[j].Value() == old(executions[j].Value())
      ensures found ==>
          var over := status == Completed || status == Failed || status == TimedOut;
          var r, was, wasDone, code := executions[id], old(executions[id].startedAt), old(executions[id].completedAt),
                                       old(executions[id].exitCode);
          && r.status == status
          && r.startedAt == (if status == Running && was.None? then Some(now) else was)
          && r.completedAt == (if over && wasDone.None? then Some(now) else wasDone)
          && r.exitCode == (if over && exitCode.Some? then exitCode else code)
          && successful == old(successful) + (if status == Completed then 1 else 0)
          && failed == old(failed) + (if status == Failed || status == TimedOut then 1 else 0)
          && durations == (if over && r.startedAt.Some? && r.completedAt.Some?
                           then Push(old(durations), r.completedAt.value - r.startedAt.value) else old(durations))
    {
      hide Recs, Updated, Push;
      if id !in executions {
        return false;
      }
      var record := executions[id];
      AdvanceRecord(id, status, exitCode, now);
      if status == Completed || status == Failed || status == TimedOut {
        CountOutcome(status, record.startedAt, record.completedAt);
      }
      return true;
    }

    /** The part of `update_status` that changes the record. */
    method AdvanceRecord(id: Id, status: ExecStatus, exitCode: Option<int>, now: Time)
      requires Valid() && id in executions
      modifies executions[id]
      ensures Recs() == old(Recs())[id := Updated(old(Recs())[id], status, exitCode, now)]
      ensures executions[id].Value() == Recs()[id]
      ensures forall j :: j in executions && j != id ==> executions[j].Value() == old(executions[j].Value())
      ensures var over := status == Completed || status == Failed || status == TimedOut;
              var r, was, wasDone, code := executions[id], old(executions[id].startedAt),
                                           old(executions[id].completedAt), old(executions[id].exitCode);
              && r.status == status
              && r.startedAt == (if status == Running && was.None? then Some(now) else was)
              && r.completedAt == (if over && wasDone.None? then Some(now) else wasDone)
              && r.exitCode == (if over && exitCode.Some? then exitCode else code)
    {
      executions[id].Advance(status, exitCode, now);
    }

    /** The metrics part of `update_status`. */
    method CountOutcome(status: ExecStatus, startedAt: Option<Time>, completedAt: Option<Time>)
      modifies `successful, `failed, `durations
      ensures successful == if status == Completed then old(successful) + 1 else old(successful)
      ensures failed == if status == Failed || status == TimedOut then old(failed) + 1 else old(failed)
      ensures durations == if startedAt.Some? && completedAt.Some?
                           then Push(old(durations), completedAt.value - startedAt.value) else old(durations)
    {
      if status == Completed {
        successful := successful + 1;
      } else if status == Failed || status == TimedOut {
        failed := failed + 1;
      }
      if startedAt.Some? && completedAt.Some? {
        durations := Push(durations, completedAt.value - startedAt.value);
      }
    }

    /** Durations are microseconds, the reported mean is milliseconds, 0 without any duration. */
    method GetMetrics() returns (m: Metrics)
      ensures m.total == total && m.successful == successful && m.failed == failed
      ensures m.active == |ActiveIds(Recs())|
      ensures Rounded(if durations == [] then 0.0 else Sum(durations) as real / 1000.0 / |durations| as real,
                      m.averageDurationMs)
    {
      var average := 0.0;
      if durations != [] {
        var sum := 0;
        for i := 0 to |durations|
          invariant sum == Sum(durations[..i])
        {
          assert durations[..i + 1][..i] == durations[..i];
          sum := sum + durations[i];
        }
        assert durations[..|durations|] == durations;
        average := sum as real / 1000.0 / |durations| as real;
      }
      var rounded := RoundToHundredths(average);
      var active := CountActive();
      m := Metrics(total, successful, failed, rounded, active);
    }

    lemma ExpiredById(cutoff: Time)
      ensures ExpiredIds(Recs(), cutoff) <= executions.Keys
      ensures forall id :: id in ExpiredIds(Recs(), cutoff) <==>
          && id in executions
          && (executions[id].status == Completed || executions[id].status == Failed
              || executions[id].status == TimedOut)
          && executions[id].completedAt.Some? && executions[id].completedAt.value < cutoff
      ensures forall id :: id in executions ==>
          (id in ExpiredIds(Recs(), cutoff) <==> IsExpired(executions[id].Value(), cutoff))
    {
    }

    /** The collecting loop of `cleanup_expired`. */
    method CollectExpired(cutoff: Time) returns (expired: seq<Id>)
      ensures Elements(expired) == ExpiredIds(Recs(), cutoff) && |expired| == |ExpiredIds(Recs(), cutoff)|
      ensures forall id :: id in Elements(expired) <==>
          && id in executions
          && (executions[id].status == Completed || executions[id].status == Failed
              || executions[id].status == TimedOut)
          && executions[id].completedAt.Some? && executions[id].completedAt.value < cutoff
    {
      hide Recs, ExpiredIds, IsExpired;
      expired := [];
      ghost var all := ExpiredIds(Recs(), cutoff);
      ExpiredById(cutoff);
      var todo := executions.Keys;
      assert all - todo == {};
      while todo != {}
        invariant todo <= executions.Keys && |expired| == |all - todo|
        invariant forall id :: id in expired <==> id in all && id !in todo
      {
        var id :| id in todo;
        CountStep(all, todo, id);
        var past := executions[id].PastRetention(cutoff);
        if past {
          expired := expired + [id];
        }
        todo := todo - {id};
      }
      assert all - todo == all == Elements(expired);
    }

    /** The section of `cleanup_expired` under the lock. */
    method RemoveExpired(cutoff: Time) returns (expired: seq<Id>)
      requires Valid()
      modifies this
      ensures Valid() && View() == DropExpired(old(View()), cutoff)
      ensures Elements(expired) == ExpiredIds(old(Recs()), cutoff)
      ensures |expired| == |ExpiredIds(old(Recs()), cutoff)|
      ensures executions == old(executions) - Elements(expired)
    {
      hide ExpiredIds, Elements;
      expired := CollectExpired(cutoff);
      NoElements(expired);
      for i := 0 to |expired|
        invariant executions == old(executions) - Elements(expired[..i])
        invariant total == old(total) && successful == old(successful) && failed == old(failed)
        invariant durations == old(durations)
      {
        ElementsNext(expired, i);
        executions := executions - {expired[i]};
      }
      assert expired[..|expired|] == expired;
      assert Recs() == old(Recs()) - Elements(expired);
    }

    /** Removes the expired records under the lock, then, outside it, their contexts, then their buffers. */
    method CleanupExpired(now: Time) returns (removed: nat)
      requires Valid() && (collector != null ==> collector.Valid())
      modifies this, encryption, collector
      ensures Valid() && (collector != null ==> collector.Valid())
      ensures var expired := ExpiredIds(old(Recs()), now - retention);
              && View() == DropExpired(old(View()), now - retention)
              && removed == |expired|
              && (encryption != null ==> encryption.contexts == old(encryption.contexts) - expired)
              && (collector != null ==> collector.View() == old(collector.View()) - expired)
      ensures forall id :: id in executions ==> id in old(executions) && executions[id] == old(executions)[id]
      ensures forall id :: id in old(executions) ==>
          (id !in executions <==>
             && old(executions[id].status == Completed || executions[id].status == Failed
                    || executions[id].status == TimedOut)
             && old(executions[id].completedAt.Some?) && now - old(executions[id].completedAt).value > retention)
      ensures encryption != null ==>
          && (forall id :: id in encryption.contexts <==>
                id in old(encryption.contexts) && !(id in old(executions) && id !in executions))
          && (forall id :: id in encryption.contexts ==> encryption.contexts[id] == old(encryption.contexts)[id])
      ensures collector != null ==>
          forall id :: id in collector.outputs <==>
            id in old(collector.outputs) && !(id in old(executions) && id !in executions)
    {
      hide Valid, View, Recs, DropExpired, ExpiredIds, Elements;
      ExpiredById(now - retention);
      var expired := RemoveExpired(now - retention);
      removed := |expired|;
      if encryption != null {
        RemoveContexts(encryption, expired);
      }
      if collector != null {
        RemoveOutputs(collector, expired);
      }
    }
  }
}
