/** What holds of every run of the build driver: exit code, isolation, provenance, reconnects. */
module BuildRuns {
  import opened Prelude
  import opened ArtifactRef
  import opened BuildFlavor
  import opened BuildDriver

  // The result.

  /** `main`: zero only if some flavor produced an AMI; an escaped exception is one. */
  function ExitCode(ended: Ended): int {
    if ended.Finished? && exists name :: name in ended.results && ended.results[name] == SuccessStatus then 0 else 1
  }

  /** The flavor was attempted, all its steps went through, and so did its Pass 2. */
  predicate Succeeds(turns: seq<Turn>, pass2: string -> Pass2, i: nat)
    requires i < |turns|
  {
    var p := pass2(turns[i].name);
    i < Reached(turns) && turns[i].fate.None? && p.waitOk && p.register.Some? && p.writeOk
  }

  lemma ExitZeroIff(turns: seq<Turn>, pass2: string -> Pass2, ended: Ended)
    requires EndsAs(turns, pass2, ended)
    ensures ExitCode(ended) == 0
            <==> !RunEscapes(turns) && exists i: nat :: i < |turns| && Succeeds(turns, pass2, i)
    ensures ended.Finished? ==> forall name :: name in ended.results ==> ended.results[name] != Pass1Ok
  {
    hide Reached, RunEscapes, ConnBefore;
    if ended.Finished? {
      forall name | name in ended.results
        ensures exists i: nat :: i < |turns| && turns[i].name == name
                                 && ended.results[name] == FinalStatus(turns, pass2, i)
      {
        assert NamedBelow(turns, |turns|, name);
        var i :| 0 <= i < |turns| && turns[i].name == name;
        assert ended.results[name] == FinalStatus(turns, pass2, i);
      }
      if i: nat :| i < |turns| && Succeeds(turns, pass2, i) {
        assert ended.results[turns[i].name] == FinalStatus(turns, pass2, i);
      }
      if ExitCode(ended) == 0 {
        var name :| name in ended.results && ended.results[name] == SuccessStatus;
        var i: nat :| i < |turns| && turns[i].name == name && ended.results[name] == FinalStatus(turns, pass2, i);
        assert Succeeds(turns, pass2, i);
      }
    }
  }

  // The same on the job itself.

  /** Pass 1 goes on after this flavor. */
  predicate GoesOn(w: World, allowDebug: bool) {
    Passes(w.pass1, allowDebug)
    || Trouble(w.pass1, allowDebug) == Application
    || (Trouble(w.pass1, allowDebug) == Transport && w.reconnect == Alive)
  }

  /** An exception leaves the driver at this flavor. */
  predicate Aborts(w: World, allowDebug: bool) {
    !Passes(w.pass1, allowDebug)
    && (Trouble(w.pass1, allowDebug) == Other
        || (Trouble(w.pass1, allowDebug) == Transport && w.reconnect == Uncaught))
  }

  /** Every flavor before this one let Pass 1 go on. */
  predicate Attempts(job: Job, i: nat)
    requires i <= |job.worlds|
  {
    forall j :: 0 <= j < i ==> GoesOn(job.worlds[j], job.allowDebug)
  }

  lemma TurnSays(job: Job, i: nat)
    requires job.Valid() && i < |job.flavors|
    ensures var t, w := Turns(job)[i], job.worlds[i];
            && t.name == job.flavors[i].name
            && t.fate == (if Passes(w.pass1, job.allowDebug) then None else Some(Trouble(w.pass1, job.allowDebug)))
            && (t.Continues() <==> GoesOn(w, job.allowDebug)) && (t.Escapes() <==> Aborts(w, job.allowDebug))
  {
    var t := Turns(job)[i];
    assert Matches(t, job.flavors[i], job.worlds[i], job.allowDebug);
    FatesSay(Target(job.flavors[i]), job.worlds[i].pass1, job.allowDebug);
    hide Passes, Trouble, Fates, Turns;
  }

  lemma {:induction false} ReachedIff(turns: seq<Turn>, i: nat)
    requires i < |turns|
    ensures i < Reached(turns) <==> forall j :: 0 <= j < i ==> turns[j].Continues()
  {
    StopFromStops(turns, 0);
  }

  lemma {:induction false} AttemptedIff(job: Job, i: nat)
    requires job.Valid() && i < |job.flavors|
    ensures i < Reached(Turns(job)) <==> Attempts(job, i)
  {
    var turns := Turns(job);
    ReachedIff(turns, i);
    forall j | 0 <= j < i
      ensures turns[j].Continues() <==> GoesOn(job.worlds[j], job.allowDebug)
    {
      TurnSays(job, j);
    }
    hide Reached, Turns, GoesOn;
  }

  /** The status each flavor ends with, by what the host and the cloud answered. */
  lemma {:induction false} StatusIs(job: Job, i: nat)
    requires job.Valid() && i < |job.flavors|
    ensures var w, p := job.worlds[i], job.pass2(job.flavors[i].name);
            FinalStatus(Turns(job), job.pass2, i)
            == if !Attempts(job, i) then SkippedHostDead
               else if Passes(w.pass1, job.allowDebug) then
                 if p.waitOk && p.register.Some? && p.writeOk then SuccessStatus else FailedPass2
               else if Trouble(w.pass1, job.allowDebug) == Transport then FailedTransport
               else FailedApplication
  {
    TurnSays(job, i);
    AttemptedIff(job, i);
    hide Passes, Trouble, Attempts, Reached, Turns;
  }

  /** An exception leaves the driver exactly at an attempted flavor that aborts the run. */
  lemma {:induction false} EscapesIff(job: Job)
    requires job.Valid()
    ensures RunEscapes(Turns(job))
            <==> exists i :: 0 <= i < |job.flavors| && Attempts(job, i) && Aborts(job.worlds[i], job.allowDebug)
  {
    hide Reached, Turns, RunEscapes, Aborts, Attempts;
    var turns := Turns(job);
    forall i | 0 <= i < |turns|
      ensures turns[i].Escapes() <==> Aborts(job.worlds[i], job.allowDebug)
      ensures i < Reached(turns) <==> Attempts(job, i)
    {
      TurnSays(job, i);
      AttemptedIff(job, i);
    }
    RunEscapesIff(turns);
  }

  lemma {:induction false} RunEscapesIff(turns: seq<Turn>)
    ensures RunEscapes(turns) <==> exists i :: 0 <= i < Reached(turns) && turns[i].Escapes()
  {
    StopFromStops(turns, 0);
    var n := Reached(turns);
    hide Reached;
    assert forall i :: 0 <= i < |turns| && turns[i].Escapes() ==> !turns[i].Continues();
  }

  lemma {:induction false} SucceedsIff(job: Job, i: nat)
    requires job.Valid() && i < |job.flavors|
    ensures Succeeds(Turns(job), job.pass2, i)
            <==> var p := job.pass2(job.flavors[i].name);
                 Attempts(job, i) && Passes(job.worlds[i].pass1, job.allowDebug)
                 && p.waitOk && p.register.Some? && p.writeOk
  {
    TurnSays(job, i);
    AttemptedIff(job, i);
    hide Passes, Trouble, Attempts, Reached, Turns;
  }

  /** Two runs that differ in one flavor only, which lets the loop go on in both, agree on all others. */
  lemma FailuresAreIsolated(a: seq<Turn>, b: seq<Turn>, pass2a: string -> Pass2, pass2b: string -> Pass2, i: nat)
    requires |a| == |b| && i < |a| && Distinct(a) && a[i].name == b[i].name
    requires a[i].Continues() && b[i].Continues()
    requires forall j :: 0 <= j < |a| && j != i ==> a[j] == b[j] && pass2a(a[j].name) == pass2b(b[j].name)
    ensures RunEscapes(a) == RunEscapes(b)
    ensures forall j :: 0 <= j < |a| && j != i ==> FinalStatus(a, pass2a, j) == FinalStatus(b, pass2b, j)
  {
    StopFromStops(a, 0);
    var n := Reached(a);
    assert forall j :: 0 <= j < n - 1 ==> b[j].Continues();
    StopFromIs(b, 0, n);
  }

  /** The rest of the run is the same. */
  ghost predicate RestUnchanged(a: seq<Turn>, b: seq<Turn>, pass2: string -> Pass2, i: nat)
    requires |a| == |b|
  {
    && RunEscapes(a) == RunEscapes(b)
    && forall j :: 0 <= j < |a| && j != i ==> FinalStatus(a, pass2, j) == FinalStatus(b, pass2, j)
  }

  /** Not attempted, or the loop goes on after it, or it is the last and its failure stays in the driver. */
  predicate Isolated(turns: seq<Turn>, i: nat)
    requires i < |turns|
  {
    Reached(turns) <= i || turns[i].Continues() || (i == |turns| - 1 && !turns[i].Escapes())
  }

  /** What one turn without a failure in place of turn `i` leads to. */
  lemma {:induction false} RepairedReaches(a: seq<Turn>, good: Turn, b: seq<Turn>, i: nat)
    requires i < |a| && good.fate.None? && b == a[i := good]
    ensures Reached(a) <= i || a[i].Continues() ==> Reached(b) == Reached(a)
    ensures i < Reached(a) && !a[i].Continues() ==> Reached(a) == i + 1
    ensures i < Reached(a) && i + 1 < |a| ==> i + 1 < Reached(b)
    ensures i < Reached(a) && i + 1 == |a| ==> Reached(b) == |a|
  {
    StopFromStops(a, 0);
    StopFromStops(b, 0);
    var n := Reached(a);
    if n <= i || a[i].Continues() {
      assert forall j :: 0 <= j < n - 1 ==> b[j].Continues();
      StopFromIs(b, 0, n);
    }
    if i < n {
      if !a[i].Continues() {
        StopFromIs(a, 0, i + 1);
      }
      forall j | 0 <= j <= i
        ensures b[j].Continues()
      {
        assert j < i ==> b[j] == a[j];
      }
      assert i < Reached(b);
    }
  }

  /**
   * Every other flavor ends as it would had this one gone through its steps, and no exception
   * more or less leaves the driver, exactly if this turn is isolated.
   */
  lemma {:induction false} FailureIsolatedIff(a: seq<Turn>, good: Turn, pass2: string -> Pass2, i: nat)
    requires i < |a| && good.fate.None? && good.name == a[i].name
    ensures RestUnchanged(a, a[i := good], pass2, i) <==> Isolated(a, i)
  {
    var b := a[i := good];
    RepairedReaches(a, good, b, i);
    hide Reached;
    if !Isolated(a, i) && i + 1 < |a| {
      assert FinalStatus(a, pass2, i + 1) == SkippedHostDead != FinalStatus(b, pass2, i + 1);
    }
  }

  // Where an action of Pass 1 comes from.

  function Start(turns: seq<Turn>, i: nat): nat
    requires i <= |turns|
  {
    |Pass1Log(turns, i)|
  }

  /** A flavor's block: its beginning, its completed steps, and then only recovery actions. */
  lemma TurnLogShape(t: Turn, conn: nat)
    ensures var log, d := t.Log(conn), |t.steps|;
            && |log| == d + 1 + |t.Recovery(conn)| && log[0] == Began(conn, t.name)
            && (forall j :: 0 <= j < d ==> log[j + 1] == Remote(conn, t.name, t.steps[j].step))
            && (forall k :: d < k < |log| ==> log[k] == t.Recovery(conn)[k - d - 1])
  {
    StepLogAt(conn, t.name, t.steps, |t.steps|);
  }

  lemma {:induction false} EarlierIsPrefix(turns: seq<Turn>, i: nat, n: nat)
    requires i <= n <= |turns|
    ensures Start(turns, i) <= Start(turns, n)
    ensures forall k :: 0 <= k < Start(turns, i) ==> Pass1Log(turns, n)[k] == Pass1Log(turns, i)[k]
    decreases n
  {
    if i < n {
      EarlierIsPrefix(turns, i, n - 1);
    }
  }

  ghost predicate InTurn(turns: seq<Turn>, i: nat, k: nat, action: Action)
    requires i < |turns|
  {
    var log := turns[i].Log(ConnBefore(turns, i));
    Start(turns, i) <= k < Start(turns, i) + |log| && action == log[k - Start(turns, i)]
  }

  /** Every position of the Pass 1 log lies in the block of one flavor. */
  lemma {:induction false} Locate(turns: seq<Turn>, n: nat, k: nat) returns (i: nat)
    requires n <= |turns| && k < Start(turns, n)
    ensures i < n && InTurn(turns, i, k, Pass1Log(turns, n)[k])
    decreases n
  {
    if k < Start(turns, n - 1) {
      i := Locate(turns, n - 1, k);
    } else {
      i := n - 1;
    }
  }

  /** And all of that block is in the log. */
  lemma BlockIn(turns: seq<Turn>, i: nat, n: nat)
    requires i < n <= |turns|
    ensures var log := turns[i].Log(ConnBefore(turns, i));
            Start(turns, i) + |log| == Start(turns, i + 1) <= Start(turns, n)
            && forall j :: 0 <= j < |log| ==> Pass1Log(turns, n)[Start(turns, i) + j] == log[j]
  {
    hide ConnBefore;
    EarlierIsPrefix(turns, i + 1, n);
    var log := turns[i].Log(ConnBefore(turns, i));
    forall j | 0 <= j < |log|
      ensures Pass1Log(turns, n)[Start(turns, i) + j] == log[j]
    {
      assert Pass1Log(turns, i + 1)[Start(turns, i) + j] == log[j];
    }
  }

  lemma {:induction false} ConnGrows(turns: seq<Turn>, i: nat, n: nat)
    requires i <= n <= |turns|
    ensures ConnBefore(turns, i) <= ConnBefore(turns, n)
    decreases n
  {
    if i < n {
      ConnGrows(turns, i, n - 1);
    }
  }

  /** The connection of a flavor is the number of flavors before it that broke and resumed. */
  lemma {:induction false} ConnCounts(turns: seq<Turn>, n: nat)
    requires n <= |turns|
    ensures ConnBefore(turns, n)
         == |set i | 0 <= i < n && turns[i].fate == Some(Transport) && turns[i].reconnect == Alive|
  {
    var all := set i | 0 <= i < n && turns[i].fate == Some(Transport) && turns[i].reconnect == Alive;
    if n == 0 {
      assert all == {};
    } else {
      ConnCounts(turns, n - 1);
      var before := set i | 0 <= i < n - 1 && turns[i].fate == Some(Transport) && turns[i].reconnect == Alive;
      assert all == if turns[n - 1].Resumes() then before + {n - 1} else before;
    }
  }

  // Reconnects.

  predicate OnHost(a: Action) {
    a.Began? || a.Remote?
  }

  lemma HostActionInTurn(t: Turn, conn: nat, o: nat)
    requires o < |t.Log(conn)| && OnHost(t.Log(conn)[o])
    ensures o <= |t.steps| && t.Log(conn)[o].conn == conn && t.Log(conn)[o].name == t.name
    ensures t.Log(conn)[o].Began? ==> o == 0
  {
    TurnLogShape(t, conn);
    var recovery := t.Recovery(conn);
    assert forall x :: 0 <= x < |recovery| ==> !OnHost(recovery[x]);
    if 0 < o <= |t.steps| {
      assert t.Log(conn)[(o - 1) + 1] == Remote(conn, t.name, t.steps[o - 1].step);
    }
  }

  lemma BreakInTurn(t: Turn, conn: nat, o: nat)
    requires o < |t.Log(conn)| && t.Log(conn)[o].Broke?
    ensures t.fate.Some? && o == |t.steps| + 1 && t.Log(conn)[o] == Broke(t.name, t.fate.value)
  {
    TurnLogShape(t, conn);
    var recovery := t.Recovery(conn);
    assert forall x :: 0 < x < |recovery| ==> !recovery[x].Broke?;
    if 0 < o <= |t.steps| {
      StepAt(t, conn, o - 1);
      assert false;
    }
  }

  lemma ResumedTurn(t: Turn, conn: nat)
    requires t.Resumes()
    ensures var log, d := t.Log(conn), |t.steps|;
            |log| == d + 4 && log[d + 2] == Reconnected(t.name, conn + 1) && log[d + 3] == Killed(t.name, t.killOk)
  {
    TurnLogShape(t, conn);
    var recovery := t.Recovery(conn);
    assert recovery == [Broke(t.name, Transport), Reconnected(t.name, conn + 1), Killed(t.name, t.killOk)];
    var log, d := t.Log(conn), |t.steps|;
    assert log[d + 2] == recovery[1];
    assert log[d + 3] == recovery[2];
  }

  lemma HostActionAt(turns: seq<Turn>, n: nat, k: nat) returns (i: nat)
    requires n <= |turns| && k < Start(turns, n) && OnHost(Pass1Log(turns, n)[k])
    ensures i < n && Start(turns, i) <= k <= Start(turns, i) + |turns[i].steps|
    ensures Pass1Log(turns, n)[k].conn == ConnBefore(turns, i) && Pass1Log(turns, n)[k].name == turns[i].name
    ensures Pass1Log(turns, n)[k].Began? ==> k == Start(turns, i)
  {
    i := Locate(turns, n, k);
    HostActionInTurn(turns[i], ConnBefore(turns, i), k - Start(turns, i));
  }

  lemma BreakAt(turns: seq<Turn>, n: nat, k: nat) returns (i: nat)
    requires n <= |turns| && k < Start(turns, n) && Pass1Log(turns, n)[k].Broke?
    ensures i < n && k == Start(turns, i) + |turns[i].steps| + 1
    ensures turns[i].fate.Some? && Pass1Log(turns, n)[k] == Broke(turns[i].name, turns[i].fate.value)
  {
    i := Locate(turns, n, k);
    BreakInTurn(turns[i], ConnBefore(turns, i), k - Start(turns, i));
  }

  /** The block of a flavor that broke and resumed. */
  lemma ResumedBlock(turns: seq<Turn>, i: nat, n: nat, k: nat)
    requires i < n <= |turns| && turns[i].Resumes() && k == Start(turns, i) + |turns[i].steps| + 1
    ensures Start(turns, i + 1) == k + 3 <= Start(turns, n)
    ensures Pass1Log(turns, n)[k + 1] == Reconnected(turns[i].name, ConnBefore(turns, i) + 1)
    ensures Pass1Log(turns, n)[k + 2] == Killed(turns[i].name, turns[i].killOk)
  {
    hide Pass1Log, ConnBefore;
    var conn, d := ConnBefore(turns, i), |turns[i].steps|;
    ResumedTurn(turns[i], conn);
    BlockIn(turns, i, n);
    assert Pass1Log(turns, n)[Start(turns, i) + (d + 2)] == turns[i].Log(conn)[d + 2];
    assert Pass1Log(turns, n)[Start(turns, i) + (d + 3)] == turns[i].Log(conn)[d + 3];
  }

  lemma StartsOrdered(turns: seq<Turn>, i: nat, j: nat, k: nat, m: nat)
    requires i < |turns| && j < |turns| && k < m
    requires Start(turns, i) <= k && m < Start(turns, j + 1)
    ensures i <= j
  {
    hide Start, Pass1Log;
    if j < i {
      EarlierIsPrefix(turns, j + 1, i);
    }
  }

  /** What runs on the host after a transport error belongs to a later flavor. */
  lemma LaterFlavor(turns: seq<Turn>, n: nat, i: nat, j: nat, k: nat, m: nat)
    requires i < n <= |turns| && j < n && k < m
    requires k == Start(turns, i) + |turns[i].steps| + 1
    requires Start(turns, j) <= m <= Start(turns, j) + |turns[j].steps|
    ensures i < j
  {
    var log := turns[j].Log(ConnBefore(turns, j));
    TurnLogShape(turns[j], ConnBefore(turns, j));
    BlockIn(turns, j, n);
    assert |log| > |turns[j].steps|;
    StartsOrdered(turns, i, j, k, m);
  }

  /** And what ran before it, to this flavor or an earlier one. */
  lemma EarlierFlavor(turns: seq<Turn>, n: nat, q: nat, i: nat, e: nat, k: nat)
    requires q < n <= |turns| && i < n && e < k && Start(turns, q) <= e
    requires k == Start(turns, i) + |turns[i].steps| + 1 && turns[i].fate.Some?
    ensures q <= i
  {
    TurnLogShape(turns[i], ConnBefore(turns, i));
    BlockIn(turns, i, n);
    StartsOrdered(turns, q, i, e, k);
  }

  lemma {:induction false} EarlierConnections(turns: seq<Turn>, n: nat, i: nat, k: nat)
    requires i < n <= |turns| && k <= Start(turns, n)
    requires k == Start(turns, i) + |turns[i].steps| + 1 && turns[i].fate.Some?
    ensures forall e :: 0 <= e < k && OnHost(Pass1Log(turns, n)[e]) ==>
        Pass1Log(turns, n)[e].conn <= ConnBefore(turns, i)
  {
    forall e | 0 <= e < k && OnHost(Pass1Log(turns, n)[e])
      ensures Pass1Log(turns, n)[e].conn <= ConnBefore(turns, i)
    {
      var q := HostActionAt(turns, n, e);
      EarlierFlavor(turns, n, q, i, e, k);
      ConnGrows(turns, q, i);
    }
  }

  /**
   * After a transport error nothing runs on the host before a successful reconnect and a kill
   * attempt, and what runs then uses a newer connection than everything before the error.
   */
  lemma {:induction false} TransportErrorsReconnectFirst(turns: seq<Turn>, log: seq<Action>, k: nat, m: nat)
    requires log == Pass1Log(turns, Reached(turns)) && k < m < |log|
    requires log[k].Broke? && log[k].failure == Transport && OnHost(log[m])
    ensures k + 2 < m && log[k + 1].Reconnected? && log[k + 2].Killed?
    ensures log[k + 1].name == log[k + 2].name == log[k].name
    ensures log[k + 1].conn <= log[m].conn
    ensures forall e :: 0 <= e < k && OnHost(log[e]) ==> log[e].conn < log[k + 1].conn
  {
    var n := Reached(turns);
    var i := BreakAt(turns, n, k);
    var j := HostActionAt(turns, n, m);
    LaterFlavor(turns, n, i, j, k, m);
    StopFromStops(turns, 0);
    assert turns[i].Continues();
    ResumedBlock(turns, i, n, k);
    LaterStarts(turns, i, j);
    EarlierConnections(turns, n, i, k);
  }

  lemma LaterStarts(turns: seq<Turn>, i: nat, j: nat)
    requires i < j <= |turns| && turns[i].Resumes()
    ensures Start(turns, i + 1) <= Start(turns, j) && ConnBefore(turns, i) + 1 <= ConnBefore(turns, j)
  {
    hide Start, Pass1Log;
    EarlierIsPrefix(turns, i + 1, j);
    ConnGrows(turns, i + 1, j);
  }

  /** Each flavor begins at most once. */
  lemma {:induction false} AttemptedAtMostOnce(turns: seq<Turn>, n: nat, p: nat, q: nat)
    requires Distinct(turns) && n <= |turns| && p < q < Start(turns, n)
    requires Pass1Log(turns, n)[p].Began? && Pass1Log(turns, n)[q].Began?
    ensures Pass1Log(turns, n)[p].name != Pass1Log(turns, n)[q].name
  {
    var i := HostActionAt(turns, n, p);
    var j := HostActionAt(turns, n, q);
  }

  // Pass 2.

  /** Every action of Pass 2 belongs to one captured flavor. */
  lemma {:induction false} LocatePass2(captured: seq<Captured>, pass2: string -> Pass2, n: nat, k: nat)
    returns (c: nat)
    requires n <= |captured| && k < |Pass2LogUpTo(captured, pass2, n)|
    ensures c < n && Pass2LogUpTo(captured, pass2, n)[k] in Pass2Actions(captured[c], pass2(captured[c].name))
    decreases n
  {
    if k < |Pass2LogUpTo(captured, pass2, n - 1)| {
      c := LocatePass2(captured, pass2, n - 1, k);
    } else {
      c := n - 1;
    }
  }

  /** Where a registration in the log of a run comes from: an attempted flavor with no failure. */
  lemma RegistrationOf(turns: seq<Turn>, pass2: string -> Pass2, log: seq<Action>, k: nat) returns (i: nat)
    requires log == RunLog(turns, pass2) && k < |log| && log[k].Registered?
    ensures i < Reached(turns) && turns[i].fate.None? && Start(turns, Reached(turns)) <= k
    ensures log[k].name == turns[i].captured.name && log[k].snapshot == turns[i].captured.snapshot
    ensures log[k].imageDigest == turns[i].captured.imageDigest
    ensures pass2(log[k].name).waitOk && pass2(log[k].name).register == Some(log[k].ami)
  {
    hide Reached, RunEscapes, Pass1Log, CapturedUpTo, ConnBefore, Pass2LogUpTo;
    var n := Reached(turns);
    if k < Start(turns, n) {
      var j := Locate(turns, n, k);
      NoRegistrationInTurn(turns[j], ConnBefore(turns, j), k - Start(turns, j));
      assert false;
    }
    var captured := CapturedUpTo(turns, n);
    var c := LocatePass2(captured, pass2, |captured|, k - Start(turns, n));
    i := CapturedSource(turns, n, captured, c);
  }

  lemma {:induction false} ResultInPass2(captured: seq<Captured>, pass2: string -> Pass2, n: nat, k: nat)
    requires n <= |captured| && k < |Pass2LogUpTo(captured, pass2, n)|
    requires Pass2LogUpTo(captured, pass2, n)[k].ResultWritten?
    ensures var log := Pass2LogUpTo(captured, pass2, n);
            k > 0 && log[k - 1].Registered? && log[k - 1].name == log[k].name && log[k - 1].ami == log[k].ami
    decreases n
  {
    var before := Pass2LogUpTo(captured, pass2, n - 1);
    if k < |before| {
      ResultInPass2(captured, pass2, n - 1, k);
    } else {
      var own := Pass2Actions(captured[n - 1], pass2(captured[n - 1].name));
      assert Pass2LogUpTo(captured, pass2, n)[k] == own[k - |before|];
      assert k == |before| + 1 && Pass2LogUpTo(captured, pass2, n)[k - 1] == own[0];
    }
  }

  lemma NoResultInTurn(t: Turn, conn: nat, o: nat)
    requires o < |t.Log(conn)|
    ensures !t.Log(conn)[o].ResultWritten?
  {
    TurnLogShape(t, conn);
    var recovery := t.Recovery(conn);
    assert forall x :: 0 <= x < |recovery| ==> !recovery[x].ResultWritten?;
    if 0 < o <= |t.steps| {
      assert t.Log(conn)[(o - 1) + 1] == Remote(conn, t.name, t.steps[o - 1].step);
    }
  }

  /** A result file is written right after a registration of its flavor, and names the AMI registered there. */
  lemma {:induction false} ResultsNameTheirImage(turns: seq<Turn>, pass2: string -> Pass2, log: seq<Action>, k: nat)
    requires log == RunLog(turns, pass2) && k < |log| && log[k].ResultWritten?
    ensures k > 0 && log[k - 1].Registered? && log[k - 1].name == log[k].name && log[k - 1].ami == log[k].ami
  {
    hide Reached, RunEscapes, Pass1Log, CapturedUpTo, ConnBefore, Pass2LogUpTo;
    var n := Reached(turns);
    if k < Start(turns, n) {
      var j := Locate(turns, n, k);
      NoResultInTurn(turns[j], ConnBefore(turns, j), k - Start(turns, j));
      assert false;
    }
    var captured := CapturedUpTo(turns, n);
    ResultInPass2(captured, pass2, |captured|, k - Start(turns, n));
  }

  lemma NoRegistrationInTurn(t: Turn, conn: nat, o: nat)
    requires o < |t.Log(conn)|
    ensures !t.Log(conn)[o].Registered?
  {
    TurnLogShape(t, conn);
    var recovery := t.Recovery(conn);
    assert forall x :: 0 <= x < |recovery| ==> !recovery[x].Registered?;
    if 0 < o <= |t.steps| {
      assert t.Log(conn)[(o - 1) + 1] == Remote(conn, t.name, t.steps[o - 1].step);
    }
  }

  lemma {:induction false} CapturedSource(turns: seq<Turn>, n: nat, captured: seq<Captured>, c: nat) returns (i: nat)
    requires n <= |turns| && captured == CapturedUpTo(turns, n) && c < |captured|
    ensures i < n && turns[i].fate.None? && turns[i].captured == captured[c]
    decreases n
  {
    var before := CapturedUpTo(turns, n - 1);
    if c < |before| {
      i := CapturedSource(turns, n - 1, before, c);
    } else {
      i := n - 1;
    }
  }

  // Provenance.

  /** At position `b`, on one connection, all seven steps of this flavor for one reference, ending in this snapshot. */
  ghost predicate FullPassAt(log: seq<Action>, b: nat, name: string, ref: string, snapshot: string) {
    && b + 8 <= |log| && log[b].Began?
    && var conn := log[b].conn;
       && log[b] == Began(conn, name)
       && log[b + 1] == Remote(conn, name, Wiped)
       && log[b + 2] == Remote(conn, name, Verified(ref))
       && log[b + 3] == Remote(conn, name, Pulled(ref))
       && log[b + 4] == Remote(conn, name, FilesChecked)
       && log[b + 5] == Remote(conn, name, GatePassed(ref))
       && log[b + 6] == Remote(conn, name, PcrsRead)
       && log[b + 7] == Remote(conn, name, Uploaded(snapshot))
  }

  /** The signature was good, the manifest (unless debug images are allowed) names no debug image. */
  predicate GoodAnswers(a: Answers, allowDebug: bool, snapshot: string) {
    && a.verify.Got? && a.verify.value && a.upload.Got? && a.upload.value == snapshot
    && (allowDebug || (a.manifest.Got? && a.manifest.value.Annotations? && a.manifest.value.debug != Some("true")))
  }

  /** The registration at `k` is of flavor `i`, whose whole pass lies before it at `b`. */
  ghost predicate BuiltFrom(job: Job, log: seq<Action>, k: nat, i: nat, b: nat)
    requires job.Valid() && k < |log| && log[k].Registered? && i < |job.flavors|
  {
    var f, a := job.flavors[i], job.worlds[i].pass1;
    && log[k].name == f.name && log[k].imageDigest == f.imageDigest
    && b + 8 <= k && FullPassAt(log, b, f.name, Target(f), log[k].snapshot)
    && GoodAnswers(a, job.allowDebug, log[k].snapshot)
    && job.pass2(f.name).waitOk && job.pass2(f.name).register == Some(log[k].ami)
  }

  /** A flavor without a failure took all its steps. */
  lemma NoFailureMeansAllSteps(ref: string, a: Answers, allowDebug: bool)
    requires FirstFailure(Fates(ref, a, allowDebug)).None?
    ensures Completed(Fates(ref, a, allowDebug)) == 7
    ensures a.verify.Got? && a.verify.value && a.upload.Got?
    ensures allowDebug || (a.manifest.Got? && a.manifest.value.Annotations? && a.manifest.value.debug != Some("true"))
  {
    var fates := Fates(ref, a, allowDebug);
    assert fates[1].fails == None == SignatureFate(a.verify);
    assert fates[4].fails == None == GateFate(a.manifest, allowDebug);
    assert fates[6].fails == None == RaisedBy(a.upload);
  }

  lemma StepAt(t: Turn, conn: nat, j: nat)
    requires j < |t.steps|
    ensures j + 1 < |t.Log(conn)| && t.Log(conn)[j + 1] == Remote(conn, t.name, t.steps[j].step)
  {
    TurnLogShape(t, conn);
  }

  lemma FullTurn(t: Turn, conn: nat, ref: string, a: Answers, allowDebug: bool, snapshot: string)
    requires t.fate.None? && t.steps == Fates(ref, a, allowDebug) && a.upload.Got? && a.upload.value == snapshot
    ensures |t.Log(conn)| == 8 && FullPassAt(t.Log(conn), 0, t.name, ref, snapshot)
  {
    TurnLogShape(t, conn);
    StepAt(t, conn, 0);
    StepAt(t, conn, 1);
    StepAt(t, conn, 2);
    StepAt(t, conn, 3);
    StepAt(t, conn, 4);
    StepAt(t, conn, 5);
    StepAt(t, conn, 6);
  }

  /** What a turn without a failure says about its flavor. */
  lemma FullTurnOf(f: Flavor, w: World, allowDebug: bool, t: Turn, conn: nat)
    requires Matches(t, f, w, allowDebug) && t.fate.None?
    ensures t.name == t.captured.name == f.name && t.captured.imageDigest == f.imageDigest
    ensures |t.Log(conn)| == 8 && FullPassAt(t.Log(conn), 0, f.name, Target(f), t.captured.snapshot)
    ensures GoodAnswers(w.pass1, allowDebug, t.captured.snapshot)
  {
    NoFailureMeansAllSteps(Target(f), w.pass1, allowDebug);
    var fates := Fates(Target(f), w.pass1, allowDebug);
    assert fates[..7] == fates;
    FullTurn(t, conn, Target(f), w.pass1, allowDebug, t.captured.snapshot);
  }

  lemma FullPassMoved(block: seq<Action>, log: seq<Action>, b: nat, name: string, ref: string, snapshot: string)
    requires FullPassAt(block, 0, name, ref, snapshot) && b + 8 <= |log|
    requires forall j :: 0 <= j < 8 ==> log[b + j] == block[j]
    ensures FullPassAt(log, b, name, ref, snapshot)
  {
  }

  lemma BlockInRun(turns: seq<Turn>, pass2: string -> Pass2, log: seq<Action>, i: nat, block: seq<Action>)
    requires log == RunLog(turns, pass2) && i < Reached(turns) && block == turns[i].Log(ConnBefore(turns, i))
    ensures Start(turns, i) + |block| <= Start(turns, Reached(turns)) <= |log|
    ensures forall j :: 0 <= j < |block| ==> log[Start(turns, i) + j] == block[j]
  {
    BlockIn(turns, i, Reached(turns));
  }

  lemma {:induction false} PassInRun(turns: seq<Turn>, pass2: string -> Pass2, log: seq<Action>, i: nat,
                                     block: seq<Action>, name: string, ref: string, snapshot: string)
    requires log == RunLog(turns, pass2) && i < Reached(turns) && block == turns[i].Log(ConnBefore(turns, i))
    requires |block| == 8 && FullPassAt(block, 0, name, ref, snapshot)
    ensures Start(turns, i) + 8 <= Start(turns, Reached(turns))
    ensures FullPassAt(log, Start(turns, i), name, ref, snapshot)
  {
    hide FullPassAt, Start, RunLog, Reached, ConnBefore;
    BlockInRun(turns, pass2, log, i, block);
    FullPassMoved(block, log, Start(turns, i), name, ref, snapshot);
  }

  /**
   * Every registered AMI comes from a snapshot uploaded in its own flavor's pass, after the
   * wipe, the signature check, the pull, the debug gate and the PCR check of the same
   * digest-pinned reference.
   */
  lemma RegisteredImagesAreBuilt(job: Job, log: seq<Action>, k: nat) returns (i: nat, b: nat)
    requires job.Valid() && log == RunLog(Turns(job), job.pass2) && k < |log| && log[k].Registered?
    ensures i < |job.flavors| && BuiltFrom(job, log, k, i, b)
  {
    var turns := Turns(job);
    i := RegistrationOf(turns, job.pass2, log, k);
    assert Matches(turns[i], job.flavors[i], job.worlds[i], job.allowDebug);
    FullTurnOf(job.flavors[i], job.worlds[i], job.allowDebug, turns[i], ConnBefore(turns, i));
    b := Start(turns, i);
    var block := turns[i].Log(ConnBefore(turns, i));
    PassInRun(turns, job.pass2, log, i, block, job.flavors[i].name, Target(job.flavors[i]), log[k].snapshot);
  }
}
