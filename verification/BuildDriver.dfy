/**
 * The two-pass driver over all flavors on one shared instance: an arbitrary outcome for
 * every remote step, reconnect, kill, snapshot wait, registration and result file.
 */
module BuildDriver {
  import opened Prelude
  import opened ArtifactRef
  import opened BuildFlavor

  datatype Status =
    | Pass1Ok
    | FailedTransport
    | FailedApplication
    | SkippedHostDead
    | SuccessStatus
    | FailedPass2

  /** `reconnect_ssh`: a client, None, or an exception it does not catch. */
  datatype Reconnect = Alive | Dead | Uncaught

  /** The world's answers for the flavor at one position of the manifest. */
  datatype World = World(pass1: Answers, reconnect: Reconnect, killOk: bool)

  /** Pass 2 for one flavor: the wait, the registered AMI, the result file. */
  datatype Pass2 = Pass2(waitOk: bool, register: Option<string>, writeOk: bool)

  /** A whole run's inputs. */
  datatype Job = Job(flavors: seq<Flavor>, worlds: seq<World>, pass2: string -> Pass2, allowDebug: bool)
  {
    /** A validated manifest with distinct names. */
    ghost predicate Valid() {
      && |worlds| == |flavors|
      && (forall i :: 0 <= i < |flavors| ==> Accepted(flavors[i].artifactRef))
      && (forall i, j :: 0 <= i < j < |flavors| ==> flavors[i].name != flavors[j].name)
    }
  }

  datatype Ended =
    | Finished(results: map<string, Status>, conn: nat)
    | Escaped

  /** One flavor's turn in Pass 1: the steps it completes, how it fails, and what follows. */
  datatype Turn = Turn(
    name: string, steps: seq<StepFate>, fate: Option<Failure>, captured: Captured, reconnect: Reconnect, killOk: bool)
  {
    predicate Resumes() {
      fate == Some(Transport) && reconnect == Alive
    }

    /** The loop goes on to the next flavor. */
    predicate Continues() {
      fate.None? || fate == Some(Application) || Resumes()
    }

    /** An exception leaves the driver. */
    predicate Escapes() {
      fate == Some(Other) || (fate == Some(Transport) && reconnect == Uncaught)
    }

    /** What follows a failing step. */
    function Recovery(conn: nat): seq<Action> {
      match fate
      case None => []
      case Some(Transport) =>
        [Broke(name, Transport)]
        + (match reconnect
           case Alive => [Reconnected(name, conn + 1), Killed(name, killOk)]
           case Dead => [HostDead(name)]
           case Uncaught => [])
      case Some(f) => [Broke(name, f)]
    }

    function Log(conn: nat): seq<Action> {
      StepLog(conn, name, steps, |steps|) + Recovery(conn)
    }
  }

  /** The turn of one manifest entry. */
  function TurnOf(f: Flavor, w: World, allowDebug: bool): Turn
    requires Accepted(f.artifactRef)
  {
    var fates := Fates(Target(f), w.pass1, allowDebug);
    Turn(f.name, fates[..Completed(fates)], FirstFailure(fates), CapturedBy(f, w.pass1), w.reconnect, w.killOk)
  }

  ghost predicate Matches(t: Turn, f: Flavor, w: World, allowDebug: bool) {
    Accepted(f.artifactRef) && t == TurnOf(f, w, allowDebug)
  }

  ghost function Turns(job: Job): (turns: seq<Turn>)
    requires job.Valid()
    ensures |turns| == |job.flavors| && Distinct(turns) && SelfNamed(turns)
    ensures forall i :: 0 <= i < |turns| ==> Matches(turns[i], job.flavors[i], job.worlds[i], job.allowDebug)
  {
    seq(|job.flavors|, i requires 0 <= i < |job.flavors| => TurnOf(job.flavors[i], job.worlds[i], job.allowDebug))
  }

  lemma {:induction false} StepLogOfPrefix(conn: nat, name: string, fates: seq<StepFate>, n: nat, m: nat)
    requires m <= n <= |fates|
    ensures StepLog(conn, name, fates[..n], m) == StepLog(conn, name, fates, m)
    decreases m
  {
    if m > 0 {
      StepLogOfPrefix(conn, name, fates, n, m - 1);
    }
  }

  // The closed form.

  /** Every flavor before `n` let the loop go on. */
  ghost predicate Attempted(turns: seq<Turn>, n: nat)
    requires n <= |turns|
  {
    forall j :: 0 <= j < n ==> turns[j].Continues()
  }

  /** One past the first turn from `i` on that stops the loop, or the number of turns. */
  function StopFrom(turns: seq<Turn>, i: nat): (n: nat)
    requires i <= |turns|
    ensures i <= n <= |turns|
    decreases |turns| - i
  {
    if i == |turns| then i
    else if !turns[i].Continues() then i + 1
    else StopFrom(turns, i + 1)
  }

  /** How many flavors Pass 1 attempts: up to and including the first that stops it. */
  function Reached(turns: seq<Turn>): (n: nat)
    ensures n <= |turns|
  {
    StopFrom(turns, 0)
  }

  function Pass2Status(p: Pass2): Status {
    if p.waitOk && p.register.Some? && p.writeOk then SuccessStatus else FailedPass2
  }

  /** The status a flavor ends with, given how far Pass 1 got. */
  function FinalStatus(turns: seq<Turn>, pass2: string -> Pass2, i: nat): Status
    requires i < |turns|
  {
    if Reached(turns) <= i then SkippedHostDead
    else
      match turns[i].fate
      case None => Pass2Status(pass2(turns[i].name))
      case Some(Transport) => FailedTransport
      case Some(_) => FailedApplication
  }

  predicate RunEscapes(turns: seq<Turn>) {
    var n := Reached(turns);
    0 < n && turns[n - 1].Escapes()
  }

  /** The connection a flavor is attempted on: one more for each reconnect before it. */
  function ConnBefore(turns: seq<Turn>, n: nat): nat
    requires n <= |turns|
  {
    if n == 0 then 0 else ConnBefore(turns, n - 1) + (if turns[n - 1].Resumes() then 1 else 0)
  }

  function Pass1Log(turns: seq<Turn>, n: nat): seq<Action>
    requires n <= |turns|
  {
    if n == 0 then [] else Pass1Log(turns, n - 1) + turns[n - 1].Log(ConnBefore(turns, n - 1))
  }

  function CapturedUpTo(turns: seq<Turn>, n: nat): seq<Captured>
    requires n <= |turns|
  {
    if n == 0 then []
    else CapturedUpTo(turns, n - 1) + (if turns[n - 1].fate.None? then [turns[n - 1].captured] else [])
  }

  function Pass2Actions(c: Captured, p: Pass2): seq<Action> {
    if !p.waitOk || p.register.None? then []
    else [Registered(c.name, c.snapshot, p.register.value, c.imageDigest)]
         + (if p.writeOk then [ResultWritten(c.name, p.register.value)] else [])
  }

  function Pass2LogUpTo(captured: seq<Captured>, pass2: string -> Pass2, n: nat): seq<Action>
    requires n <= |captured|
  {
    if n == 0 then []
    else Pass2LogUpTo(captured, pass2, n - 1) + Pass2Actions(captured[n - 1], pass2(captured[n - 1].name))
  }

  function Pass2Log(captured: seq<Captured>, pass2: string -> Pass2): seq<Action> {
    Pass2LogUpTo(captured, pass2, |captured|)
  }

  /** Everything the driver does in one run. */
  function RunLog(turns: seq<Turn>, pass2: string -> Pass2): seq<Action> {
    var captured := CapturedUpTo(turns, Reached(turns));
    Pass1Log(turns, Reached(turns)) + (if RunEscapes(turns) then [] else Pass2Log(captured, pass2))
  }

  lemma {:induction false} StopFromIs(turns: seq<Turn>, i: nat, n: nat)
    requires i <= n <= |turns| && forall j :: i <= j < n - 1 ==> turns[j].Continues()
    requires n < |turns| ==> i < n && !turns[n - 1].Continues()
    ensures StopFrom(turns, i) == n
    decreases |turns| - i
  {
    if i < n && turns[i].Continues() {
      StopFromIs(turns, i + 1, n);
    }
  }

  lemma {:induction false} StopFromStops(turns: seq<Turn>, i: nat)
    requires i <= |turns|
    ensures var n := StopFrom(turns, i);
            && (forall j :: i <= j < n - 1 ==> turns[j].Continues())
            && (n < |turns| ==> i < n && !turns[n - 1].Continues())
    decreases |turns| - i
  {
    if i < |turns| && turns[i].Continues() {
      StopFromStops(turns, i + 1);
    }
  }

  // The driver's loops.

  /** What Pass 1 leaves in the result map for an attempted flavor. */
  function MidStatus(t: Turn): Status {
    match t.fate
    case None => Pass1Ok
    case Some(Transport) => FailedTransport
    case Some(_) => FailedApplication
  }

  /** The map after the first `n` flavors, when those from `reached` on were skipped. */
  function ResultsUpTo(turns: seq<Turn>, reached: nat, n: nat): map<string, Status>
    requires n <= |turns|
  {
    if n == 0 then map[]
    else
      ResultsUpTo(turns, reached, n - 1)[
        turns[n - 1].name := if n - 1 < reached then MidStatus(turns[n - 1]) else SkippedHostDead]
  }

  lemma {:induction false} SameBelow(turns: seq<Turn>, r: nat, s: nat, n: nat)
    requires n <= |turns| && n <= r && n <= s
    ensures ResultsUpTo(turns, r, n) == ResultsUpTo(turns, s, n)
    decreases n
  {
    if n > 0 {
      SameBelow(turns, r, s, n - 1);
    }
  }

  ghost predicate SelfNamed(turns: seq<Turn>) {
    forall i :: 0 <= i < |turns| ==> turns[i].captured.name == turns[i].name
  }

  ghost predicate Distinct(turns: seq<Turn>) {
    forall i, j :: 0 <= i < j < |turns| ==> turns[i].name != turns[j].name
  }

  datatype Outcome = Goes(conn: nat) | HostIsDead | Raised

  function OutcomeOf(t: Turn, conn: nat): Outcome {
    if t.Escapes() then Raised
    else if t.Continues() then Goes(if t.Resumes() then conn + 1 else conn)
    else HostIsDead
  }

  /** The `try` of one iteration: the attempt, and what each kind of exception leads to. */
  method TakeTurn(conn: nat, flavor: Flavor, world: World, allowDebug: bool, ghost t: Turn)
    returns (outcome: Outcome, status: Status, captured: seq<Captured>, log: seq<Action>)
    requires Matches(t, flavor, world, allowDebug)
    ensures outcome == OutcomeOf(t, conn)
    ensures outcome != Raised ==> status == MidStatus(t)
    ensures captured == if t.fate.None? then [t.captured] else []
    ensures log == t.Log(conn)
  {
    var r, attempt := BuildFlavorPass1(conn, flavor, world.pass1, allowDebug);
    ghost var fates := Fates(Target(flavor), world.pass1, allowDebug);
    StepLogOfPrefix(conn, t.name, fates, Completed(fates), Completed(fates));
    captured, outcome := [], Goes(conn);
    var recovery: seq<Action> := [];
    match r {
      case Success(result) =>
        captured := [result];
        status := Pass1Ok;
      case Failure(Transport) =>
        status := FailedTransport;
        recovery := [Broke(flavor.name, Transport)];
        match world.reconnect {
          case Alive =>
            recovery := recovery + [Reconnected(flavor.name, conn + 1), Killed(flavor.name, world.killOk)];
            outcome := Goes(conn + 1);
          case Dead =>
            recovery := recovery + [HostDead(flavor.name)];
            outcome := HostIsDead;
          case Uncaught =>
            outcome := Raised;
        }
      case Failure(Application) =>
        status := FailedApplication;
        recovery := [Broke(flavor.name, Application)];
      case Failure(Other) =>
        status := FailedApplication;
        recovery := [Broke(flavor.name, Other)];
        outcome := Raised;
    }
    log := attempt + recovery;
  }

  /** The loop's variables after the first `n` turns, none of which stopped it. */
  ghost predicate After(turns: seq<Turn>, n: nat, results: map<string, Status>, captured: seq<Captured>, conn: nat,
                        log: seq<Action>) {
    && n <= |turns| && Attempted(turns, n)
    && log == Pass1Log(turns, n) && captured == CapturedUpTo(turns, n) && conn == ConnBefore(turns, n)
    && results == ResultsUpTo(turns, n, n)
  }

  lemma AfterNone(turns: seq<Turn>)
    ensures After(turns, 0, map[], [], 0, [])
  {
  }

  lemma {:induction false} OneMore(turns: seq<Turn>, n: nat, results: map<string, Status>, captured: seq<Captured>,
                                   conn: nat, log: seq<Action>)
    requires After(turns, n, results, captured, conn, log) && n < |turns|
    ensures var t := turns[n];
            && log + t.Log(conn) == Pass1Log(turns, n + 1)
            && captured + (if t.fate.None? then [t.captured] else []) == CapturedUpTo(turns, n + 1)
            && results[t.name := MidStatus(t)] == ResultsUpTo(turns, n + 1, n + 1)
            && ConnBefore(turns, n + 1) == if t.Resumes() then conn + 1 else conn
  {
    SameBelow(turns, n, n + 1, n);
  }

  /** What one turn makes of the loop's variables: they go on, or the loop stops here. */
  lemma {:induction false} AfterTurn(turns: seq<Turn>, n: nat, results: map<string, Status>, captured: seq<Captured>,
                                     conn: nat, log: seq<Action>)
    requires After(turns, n, results, captured, conn, log) && n < |turns|
    ensures var t, o := turns[n], OutcomeOf(turns[n], conn);
            var results', log' := results[t.name := MidStatus(t)], log + t.Log(conn);
            var captured' := captured + (if t.fate.None? then [t.captured] else []);
            if o.Goes? then After(turns, n + 1, results', captured', o.conn, log')
            else
              && Reached(turns) == n + 1 && RunEscapes(turns) == o.Raised?
              && log' == Pass1Log(turns, n + 1) && captured' == CapturedUpTo(turns, n + 1)
              && (o.HostIsDead? ==>
                    results' == ResultsUpTo(turns, n + 1, n + 1) && conn == ConnBefore(turns, n + 1))
  {
    OneMore(turns, n, results, captured, conn, log);
    hide Pass1Log, CapturedUpTo, ResultsUpTo, ConnBefore, MidStatus;
    if !turns[n].Continues() {
      StopFromIs(turns, 0, n + 1);
    }
  }

  /** The loop went through all flavors. */
  lemma {:induction false} AfterAll(turns: seq<Turn>, results: map<string, Status>, captured: seq<Captured>, conn: nat,
                                    log: seq<Action>)
    requires After(turns, |turns|, results, captured, conn, log)
    ensures Reached(turns) == |turns| && !RunEscapes(turns)
    ensures log == Pass1Log(turns, |turns|) && captured == CapturedUpTo(turns, |turns|)
    ensures conn == ConnBefore(turns, |turns|) && results == ResultsUpTo(turns, |turns|, |turns|)
  {
    NothingStopped(turns);
  }

  lemma NothingStopped(turns: seq<Turn>)
    requires Attempted(turns, |turns|)
    ensures Reached(turns) == |turns| && !RunEscapes(turns)
  {
    StopFromIs(turns, 0, |turns|);
    if turns != [] {
      assert turns[|turns| - 1].Continues();
    }
  }

  /** Pass 1: `escaped` when an exception leaves the driver. */
  method RunPass1(flavors: seq<Flavor>, worlds: seq<World>, allowDebug: bool, ghost turns: seq<Turn>)
    returns (escaped: bool, results: map<string, Status>, captured: seq<Captured>, conn: nat, log: seq<Action>)
    requires |flavors| == |worlds| == |turns|
    requires forall i :: 0 <= i < |turns| ==> Matches(turns[i], flavors[i], worlds[i], allowDebug)
    requires forall i :: 0 <= i < |turns| ==> flavors[i].name == turns[i].name
    ensures escaped == RunEscapes(turns)
    ensures log == Pass1Log(turns, Reached(turns))
    ensures captured == CapturedUpTo(turns, Reached(turns))
    ensures !escaped ==> conn == ConnBefore(turns, Reached(turns))
    ensures !escaped ==> results == ResultsUpTo(turns, Reached(turns), |turns|)
  {
    hide Matches, After, Pass1Log, CapturedUpTo, ConnBefore, ResultsUpTo, Reached, RunEscapes, OutcomeOf, MidStatus;
    results, captured, conn, log := map[], [], 0, [];
    AfterNone(turns);
    var idx := 0;
    while idx < |flavors|
      invariant After(turns, idx, results, captured, conn, log)
      invariant idx <= |flavors|
      decreases |flavors| - idx
    {
      var outcome, status, got, taken := TakeTurn(conn, flavors[idx], worlds[idx], allowDebug, turns[idx]);
      AfterTurn(turns, idx, results, captured, conn, log);
      log, captured := log + taken, captured + got;
      if outcome == Raised {
        return true, results, captured, conn, log;
      }
      results := results[flavors[idx].name := status];
      if outcome == HostIsDead {
        results := SkipRest(flavors, idx + 1, results, turns);
        return false, results, captured, conn, log;
      }
      conn := outcome.conn;
      idx := idx + 1;
    }
    escaped := false;
    AfterAll(turns, results, captured, conn, log);
  }

  /** `for skipped in flavors[idx + 1:]` */
  method SkipRest(flavors: seq<Flavor>, from: nat, before: map<string, Status>, ghost turns: seq<Turn>)
    returns (results: map<string, Status>)
    requires |flavors| == |turns|
    requires forall i :: 0 <= i < |turns| ==> flavors[i].name == turns[i].name
    requires from <= |turns| && before == ResultsUpTo(turns, from, from)
    ensures results == ResultsUpTo(turns, from, |turns|)
  {
    results := before;
    for j := from to |flavors|
      invariant results == ResultsUpTo(turns, from, j)
    {
      results := results[flavors[j].name := SkippedHostDead];
    }
  }

  ghost predicate NameIn(captured: seq<Captured>, n: nat, name: string)
    requires n <= |captured|
  {
    exists k :: 0 <= k < n && captured[k].name == name
  }

  /** Every entry after Pass 2 has handled the first `n` captures. */
  ghost predicate Merged(captured: seq<Captured>, n: nat, pass2: string -> Pass2, before: map<string, Status>,
                         results: map<string, Status>)
    requires n <= |captured|
  {
    && (forall name :: name in results <==> name in before || NameIn(captured, n, name))
    && (forall name :: NameIn(captured, n, name) ==> results[name] == Pass2Status(pass2(name)))
    && (forall name :: name in before && !NameIn(captured, n, name) ==> results[name] == before[name])
  }

  lemma MergeNext(captured: seq<Captured>, k: nat, pass2: string -> Pass2, before: map<string, Status>,
                  results: map<string, Status>)
    requires k < |captured| && Merged(captured, k, pass2, before, results)
    ensures var name := captured[k].name;
            Merged(captured, k + 1, pass2, before, results[name := Pass2Status(pass2(name))])
  {
    NamesGrow(captured, k);
  }

  lemma MergedNone(captured: seq<Captured>, pass2: string -> Pass2, before: map<string, Status>)
    ensures Merged(captured, 0, pass2, before, before)
  {
  }

  lemma Pass2StatusIs(p: Pass2)
    ensures Pass2Status(p) == if p.waitOk && p.register.Some? && p.writeOk then SuccessStatus else FailedPass2
  {
  }

  /** Pass 2: every captured flavor is waited for and registered; a failure stays with its flavor. */
  method RunPass2(captured: seq<Captured>, pass2: string -> Pass2, before: map<string, Status>)
    returns (results: map<string, Status>, log: seq<Action>)
    ensures log == Pass2Log(captured, pass2)
    ensures Merged(captured, |captured|, pass2, before, results)
  {
    hide Merged, Pass2Status;
    results, log := before, [];
    MergedNone(captured, pass2, before);
    for k := 0 to |captured|
      invariant log == Pass2LogUpTo(captured, pass2, k)
      invariant Merged(captured, k, pass2, before, results)
    {
      var c := captured[k];
      var p := pass2(c.name);
      MergeNext(captured, k, pass2, before, results);
      var done: seq<Action> := [];
      var status := FailedPass2;
      Pass2StatusIs(p);
      if p.waitOk && p.register.Some? {
        done := [Registered(c.name, c.snapshot, p.register.value, c.imageDigest)];
        if p.writeOk {
          done := done + [ResultWritten(c.name, p.register.value)];
          status := SuccessStatus;
        }
      }
      assert done == Pass2Actions(c, p);
      log := log + done;
      results := results[c.name := status];
    }
  }

  lemma NamesGrow(captured: seq<Captured>, k: nat)
    requires k < |captured|
    ensures forall name :: NameIn(captured, k + 1, name) <==> NameIn(captured, k, name) || name == captured[k].name
  {
    forall name | NameIn(captured, k, name) || name == captured[k].name
      ensures NameIn(captured, k + 1, name)
    {
      if name != captured[k].name {
        var j :| 0 <= j < k && captured[j].name == name;
        assert captured[j].name == name;
      }
    }
  }

  // The whole run.

  /** Both passes. */
  method RunBuildDriver(job: Job) returns (ended: Ended, log: seq<Action>)
    requires job.Valid()
    ensures EndsAs(Turns(job), job.pass2, ended)
    ensures log == RunLog(Turns(job), job.pass2)
  {
    ghost var turns := Turns(job);
    assert forall i :: 0 <= i < |turns| ==> Matches(turns[i], job.flavors[i], job.worlds[i], job.allowDebug)
                                            && job.flavors[i].name == turns[i].name;
    var escaped, results, captured, conn, pass1 := RunPass1(job.flavors, job.worlds, job.allowDebug, turns);
    log := pass1;
    if escaped {
      return Escaped, log;
    }
    ghost var middle := results;
    var pass2: seq<Action>;
    results, pass2 := RunPass2(captured, job.pass2, results);
    log := log + pass2;
    ended := Finished(results, conn);
    FinalResults(turns, job.pass2, captured, middle, results);
  }

  ghost predicate NamedBelow(turns: seq<Turn>, n: nat, name: string)
    requires n <= |turns|
  {
    exists i :: 0 <= i < n && turns[i].name == name
  }

  ghost predicate CapturedBelow(turns: seq<Turn>, n: nat, c: Captured)
    requires n <= |turns|
  {
    exists i :: 0 <= i < n && turns[i].fate.None? && turns[i].captured == c
  }

  /** How a run ends: every flavor of the manifest has the status of the closed form, and no other name appears. */
  ghost predicate EndsAs(turns: seq<Turn>, pass2: string -> Pass2, ended: Ended) {
    && (ended.Escaped? <==> RunEscapes(turns))
    && (ended.Finished? ==>
          && ended.conn == ConnBefore(turns, Reached(turns))
          && (forall i :: 0 <= i < |turns| ==>
                turns[i].name in ended.results && ended.results[turns[i].name] == FinalStatus(turns, pass2, i))
          && (forall name :: name in ended.results ==> NamedBelow(turns, |turns|, name)))
  }

  /** Distinct names: each flavor keeps the status that was written for it. */
  lemma {:induction false} ResultsAre(turns: seq<Turn>, reached: nat, n: nat)
    requires n <= |turns| && Distinct(turns)
    ensures var results := ResultsUpTo(turns, reached, n);
            && (forall i :: 0 <= i < n ==>
                  && turns[i].name in results
                  && results[turns[i].name] == if i < reached then MidStatus(turns[i]) else SkippedHostDead)
            && (forall name :: name in results ==> NamedBelow(turns, n, name))
    decreases n
  {
    hide MidStatus;
    if n > 0 {
      ResultsAre(turns, reached, n - 1);
      forall name | name in ResultsUpTo(turns, reached, n)
        ensures NamedBelow(turns, n, name)
      {
        if name != turns[n - 1].name {
          assert NamedBelow(turns, n - 1, name);
          var i :| 0 <= i < n - 1 && turns[i].name == name;
        }
      }
    }
  }

  /** Captured are exactly the attempted flavors that did not fail. */
  lemma {:induction false} CapturedNames(turns: seq<Turn>, n: nat, c: seq<Captured>)
    requires n <= |turns| && SelfNamed(turns) && c == CapturedUpTo(turns, n)
    ensures forall i :: 0 <= i < n && turns[i].fate.None? ==> NameIn(c, |c|, turns[i].name)
    ensures forall k :: 0 <= k < |c| ==> CapturedBelow(turns, n, c[k])
    decreases n
  {
    if n > 0 {
      var b := CapturedUpTo(turns, n - 1);
      CapturedNames(turns, n - 1, b);
      forall i | 0 <= i < n && turns[i].fate.None?
        ensures NameIn(c, |c|, turns[i].name)
      {
        if i < n - 1 {
          var k :| 0 <= k < |b| && b[k].name == turns[i].name;
          assert c[k] == b[k];
        } else {
          assert c[|b|].name == turns[i].name;
        }
      }
      forall k | 0 <= k < |c|
        ensures CapturedBelow(turns, n, c[k])
      {
        if k < |b| {
          assert b[k] == c[k];
          var i :| 0 <= i < n - 1 && turns[i].fate.None? && turns[i].captured == b[k];
          assert turns[i].captured == c[k];
        } else {
          assert turns[n - 1].captured == c[k];
        }
      }
    }
  }

  lemma {:induction false} CapturedAreKnown(turns: seq<Turn>, c: seq<Captured>, results: map<string, Status>)
    requires Distinct(turns) && SelfNamed(turns)
    requires c == CapturedUpTo(turns, Reached(turns)) && results == ResultsUpTo(turns, Reached(turns), |turns|)
    ensures forall name :: NameIn(c, |c|, name) ==> name in results
  {
    var n := Reached(turns);
    ResultsAre(turns, n, |turns|);
    CapturedNames(turns, n, c);
    forall name | NameIn(c, |c|, name)
      ensures name in results
    {
      var k :| 0 <= k < |c| && c[k].name == name;
      assert CapturedBelow(turns, n, c[k]);
      var i :| 0 <= i < n && turns[i].fate.None? && turns[i].captured == c[k];
      assert turns[i].name in results;
    }
  }

  /** A name was captured exactly if its own flavor was attempted and did not fail. */
  lemma {:induction false} CapturedIff(turns: seq<Turn>, c: seq<Captured>, i: nat)
    requires Distinct(turns) && SelfNamed(turns) && i < |turns| && c == CapturedUpTo(turns, Reached(turns))
    ensures NameIn(c, |c|, turns[i].name) <==> i < Reached(turns) && turns[i].fate.None?
  {
    var n := Reached(turns);
    CapturedNames(turns, n, c);
  }

  /** Pass 2 replaces every "pass1-ok" and nothing else. */
  lemma {:induction false} FinalResults(turns: seq<Turn>, pass2: string -> Pass2, c: seq<Captured>,
                                        middle: map<string, Status>, results: map<string, Status>)
    requires Distinct(turns) && SelfNamed(turns) && middle == ResultsUpTo(turns, Reached(turns), |turns|)
    requires c == CapturedUpTo(turns, Reached(turns)) && Merged(c, |c|, pass2, middle, results)
    ensures forall i :: 0 <= i < |turns| ==>
        turns[i].name in results && results[turns[i].name] == FinalStatus(turns, pass2, i)
    ensures forall name :: name in results ==> NamedBelow(turns, |turns|, name)
  {
    ResultsAre(turns, Reached(turns), |turns|);
    CapturedAreKnown(turns, c, middle);
    forall i | 0 <= i < |turns|
      ensures turns[i].name in results && results[turns[i].name] == FinalStatus(turns, pass2, i)
    {
      FinalResult(turns, pass2, c, middle, results, i);
    }
  }

  lemma {:induction false} FinalResult(turns: seq<Turn>, pass2: string -> Pass2, c: seq<Captured>,
                                       middle: map<string, Status>, results: map<string, Status>, i: nat)
    requires Distinct(turns) && SelfNamed(turns) && i < |turns|
    requires c == CapturedUpTo(turns, Reached(turns)) && Merged(c, |c|, pass2, middle, results)
    requires turns[i].name in middle
    requires middle[turns[i].name] == if i < Reached(turns) then MidStatus(turns[i]) else SkippedHostDead
    ensures turns[i].name in results && results[turns[i].name] == FinalStatus(turns, pass2, i)
  {
    CapturedIff(turns, c, i);
  }
}
