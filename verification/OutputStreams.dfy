/**
 * The bounded output buffer of one execution, as values: two streams share one byte
 * budget. The reference is the log of all bytes offered, tagged with their stream.
 */
module OutputStreams {
  import opened Prelude

  datatype Stream = Stdout | Stderr

  datatype Buffer = Buffer(
    stdout: seq<Byte>, stderr: seq<Byte>, complete: bool, exitCode: Option<int>, truncated: bool)
  {
    function Size(): nat { |stdout| + |stderr| }
  }

  const EMPTY := Buffer([], [], false, None, false)

  function Extend(b: Buffer, s: Stream, data: seq<Byte>): Buffer {
    match s
    case Stdout => b.(stdout := b.stdout + data)
    case Stderr => b.(stderr := b.stderr + data)
  }

  /** One `capture_output` call under the buffer lock. */
  function Capture(b: Buffer, max: nat, s: Stream, data: seq<Byte>): Buffer {
    if b.truncated || data == [] then b
    else
      var remaining := max - b.Size();
      if remaining <= 0 then b.(truncated := true)
      else if |data| > remaining then Extend(b, s, data[..remaining]).(truncated := true)
      else Extend(b, s, data)
  }

  function MarkComplete(b: Buffer, exitCode: int): Buffer {
    b.(complete := true, exitCode := Some(exitCode))
  }

  /** A Python slice `stream[offset:]`, empty past the end. */
  function From(stream: seq<Byte>, offset: nat): seq<Byte> {
    if offset <= |stream| then stream[offset..] else []
  }

  // The interleaved log of offered bytes.

  datatype Tagged = Tagged(stream: Stream, value: Byte)

  function Tag(s: Stream, data: seq<Byte>): (log: seq<Tagged>)
    ensures |log| == |data|
  {
    seq(|data|, i requires 0 <= i < |data| => Tagged(s, data[i]))
  }

  function Project(log: seq<Tagged>, s: Stream): seq<Byte> {
    if log == [] then []
    else (if log[0].stream == s then [log[0].value] else []) + Project(log[1..], s)
  }

  function First(log: seq<Tagged>, max: nat): seq<Tagged> {
    if |log| <= max then log else log[..max]
  }

  /** The buffer holds exactly the first `max` bytes of the log, each in its own stream. */
  ghost predicate Holds(b: Buffer, max: nat, log: seq<Tagged>) {
    && b.stdout == Project(First(log, max), Stdout)
    && b.stderr == Project(First(log, max), Stderr)
    && (b.truncated <==> |log| > max)
  }

  lemma {:induction false} ProjectAppend(a: seq<Tagged>, b: seq<Tagged>, s: Stream)
    ensures Project(a + b, s) == Project(a, s) + Project(b, s)
  {
    if a == [] {
      assert a + b == b;
    } else {
      assert (a + b)[1..] == a[1..] + b;
      ProjectAppend(a[1..], b, s);
      Assoc(if a[0].stream == s then [a[0].value] else [], Project(a[1..], s), Project(b, s));
    }
  }

  lemma {:induction false} ProjectLengths(log: seq<Tagged>)
    ensures |Project(log, Stdout)| + |Project(log, Stderr)| == |log|
  {
    if log != [] {
      ProjectLengths(log[1..]);
    }
  }

  lemma {:induction false} ProjectTag(s: Stream, data: seq<Byte>, t: Stream)
    ensures Project(Tag(s, data), t) == if s == t then data else []
  {
    if data != [] {
      assert Tag(s, data)[1..] == Tag(s, data[1..]);
      ProjectTag(s, data[1..], t);
    }
  }

  lemma CaptureHolds(b: Buffer, max: nat, log: seq<Tagged>, s: Stream, data: seq<Byte>)
    requires Holds(b, max, log)
    ensures Holds(Capture(b, max, s, data), max, log + Tag(s, data))
  {
    var log' := log + Tag(s, data);
    ProjectLengths(First(log, max));
    if |log| > max {
      assert First(log', max) == First(log, max);
    } else {
      var room := max - |log|;
      var kept := if |data| <= room then data else data[..room];
      assert First(log', max) == log + Tag(s, kept);
      ProjectAppend(log, Tag(s, kept), Stdout);
      ProjectAppend(log, Tag(s, kept), Stderr);
      ProjectTag(s, kept, Stdout);
      ProjectTag(s, kept, Stderr);
    }
  }

  // Whole runs: captures of both streaming threads, completion and polls in any order.

  datatype Op =
    | Offer(stream: Stream, data: seq<Byte>)
    | Finish(exitCode: int)
    | Poll

  function Step(b: Buffer, max: nat, op: Op): Buffer {
    match op
    case Offer(s, data) => Capture(b, max, s, data)
    case Finish(code) => MarkComplete(b, code)
    case Poll => b
  }

  function Run(b: Buffer, max: nat, ops: seq<Op>): Buffer
    decreases |ops|
  {
    if ops == [] then b else Run(Step(b, max, ops[0]), max, ops[1..])
  }

  function OfferedBy(op: Op): seq<Tagged> {
    if op.Offer? then Tag(op.stream, op.data) else []
  }

  function Offered(ops: seq<Op>): seq<Tagged> {
    if ops == [] then [] else OfferedBy(ops[0]) + Offered(ops[1..])
  }

  lemma StepHolds(b: Buffer, max: nat, log: seq<Tagged>, op: Op)
    requires Holds(b, max, log)
    ensures Holds(Step(b, max, op), max, log + OfferedBy(op))
  {
    if op.Offer? {
      CaptureHolds(b, max, log, op.stream, op.data);
    } else {
      assert log + [] == log;
    }
  }

  lemma {:induction false} RunHolds(b: Buffer, max: nat, log: seq<Tagged>, ops: seq<Op>)
    requires Holds(b, max, log)
    ensures Holds(Run(b, max, ops), max, log + Offered(ops))
    decreases |ops|
  {
    if ops == [] {
      assert log + [] == log;
    } else {
      StepHolds(b, max, log, ops[0]);
      RunHolds(Step(b, max, ops[0]), max, log + OfferedBy(ops[0]), ops[1..]);
      Assoc(log, OfferedBy(ops[0]), Offered(ops[1..]));
    }
  }

  /** The streams are the projections of the first `max` offered bytes; truncated iff more were offered. */
  lemma {:induction false} BufferIsPrefixOfInterleavedLog(max: nat, ops: seq<Op>)
    ensures Holds(Run(EMPTY, max, ops), max, Offered(ops))
    ensures Run(EMPTY, max, ops).Size() <= max
  {
    RunHolds(EMPTY, max, [], ops);
    assert [] + Offered(ops) == Offered(ops);
    ProjectLengths(First(Offered(ops), max));
  }

  // Polling.

  /** The stdout slices a client receives when each poll passes the offset the previous one returned. */
  function PolledStdout(b: Buffer, max: nat, ops: seq<Op>, offset: nat): seq<Byte>
    decreases |ops|
  {
    if ops == [] then []
    else if ops[0].Poll? then
      From(b.stdout, offset) + PolledStdout(b, max, ops[1..], |b.stdout|)
    else PolledStdout(Step(b, max, ops[0]), max, ops[1..], offset)
  }

  lemma StepExtends(b: Buffer, max: nat, op: Op)
    ensures b.stdout <= Step(b, max, op).stdout && b.stderr <= Step(b, max, op).stderr
  {
  }

  lemma {:induction false} PolledFrom(b: Buffer, max: nat, ops: seq<Op>, offset: nat)
    requires offset <= |b.stdout|
    ensures b.stdout <= Run(b, max, ops).stdout
    ensures PolledStdout(b, max, ops + [Poll], offset) == Run(b, max, ops).stdout[offset..]
    decreases |ops|
  {
    if ops == [] {
      assert ops + [Poll] == [Poll];
      assert From(b.stdout, offset) + [] == b.stdout[offset..];
    } else {
      assert (ops + [Poll])[1..] == ops[1..] + [Poll];
      var b' := Step(b, max, ops[0]);
      StepExtends(b, max, ops[0]);
      if ops[0].Poll? {
        PolledFrom(b, max, ops[1..], |b.stdout|);
        var final := Run(b, max, ops).stdout;
        assert final[offset..] == b.stdout[offset..] + final[|b.stdout|..];
      } else {
        PolledFrom(b', max, ops[1..], offset);
      }
    }
  }

  /** Polls chained by `stdout_offset` hand over all of stdout, with no gap and no overlap. */
  lemma {:induction false} ChainedPollsReassembleStdout(max: nat, ops: seq<Op>)
    ensures PolledStdout(EMPTY, max, ops + [Poll], 0) == Run(EMPTY, max, ops).stdout
  {
    PolledFrom(EMPTY, max, ops, 0);
  }

  // One offset serves both streams.

  /** The buffer after the first `n` operations. */
  function BufferAfter(max: nat, ops: seq<Op>, n: nat): Buffer
    requires n <= |ops|
  {
    Run(EMPTY, max, ops[..n])
  }

  lemma {:induction false} RunOneMore(b: Buffer, max: nat, ops: seq<Op>, op: Op)
    ensures Run(b, max, ops + [op]) == Step(Run(b, max, ops), max, op)
    decreases |ops|
  {
    if ops == [] {
      assert [op][1..] == [];
    } else {
      assert (ops + [op])[1..] == ops[1..] + [op];
      RunOneMore(Step(b, max, ops[0]), max, ops[1..], op);
    }
  }

  lemma BufferNext(max: nat, ops: seq<Op>, n: nat)
    requires n < |ops|
    ensures BufferAfter(max, ops, n + 1) == Step(BufferAfter(max, ops, n), max, ops[n])
  {
    assert ops[..n + 1] == ops[..n] + [ops[n]];
    RunOneMore(EMPTY, max, ops[..n], ops[n]);
  }

  /** A client that appends what each poll returns, and passes the stdout length of the last poll as offset. */
  datatype Client = Client(stderr: seq<Byte>, offset: nat)

  function ClientAfter(max: nat, ops: seq<Op>, n: nat): Client
    requires n <= |ops|
  {
    if n == 0 then Client([], 0)
    else
      var client := ClientAfter(max, ops, n - 1);
      if ops[n - 1].Poll? then
        var b := BufferAfter(max, ops, n - 1);
        Client(client.stderr + From(b.stderr, client.offset), |b.stdout|)
      else client
  }

  /** How much stderr and stdout there was at the last poll among the first `n` operations. */
  function PolledLengths(max: nat, ops: seq<Op>, n: nat): (nat, nat)
    requires n <= |ops|
  {
    if n == 0 then (0, 0)
    else if ops[n - 1].Poll? then
      var b := BufferAfter(max, ops, n - 1);
      (|b.stderr|, |b.stdout|)
    else PolledLengths(max, ops, n - 1)
  }

  /**
   * The poll at `n` continues stderr where the one before it ended: both streams were
   * equally long then, or stderr has not grown since and the offset is not short of it.
   */
  predicate PollsMeet(max: nat, ops: seq<Op>, n: nat)
    requires n < |ops|
  {
    var (err, out) := PolledLengths(max, ops, n);
    err == out || err == |BufferAfter(max, ops, n).stderr| <= out
  }

  /** After the poll at `n` the client holds exactly what stderr is. */
  ghost predicate HoldsStderr(max: nat, ops: seq<Op>, n: nat)
    requires n < |ops|
  {
    ClientAfter(max, ops, n + 1).stderr == BufferAfter(max, ops, n).stderr
  }

  /** What was handed over continues a longer stream exactly under this condition on lengths. */
  lemma ContinuesIff(held: seq<Byte>, later: seq<Byte>, offset: nat)
    requires held <= later
    ensures held + From(later, offset) == later <==> |held| == offset || |held| == |later| <= offset
  {
    var got := held + From(later, offset);
    if |held| == offset {
      assert later == later[..offset] + later[offset..];
    } else if |held| == |later| <= offset {
      assert From(later, offset) == [] && held == later;
    }
    if got == later {
      assert |got| == |later|;
    }
  }

  /** While every poll so far handed over all of stderr, the client holds stderr as of the last poll. */
  ghost predicate InStep(max: nat, ops: seq<Op>, n: nat)
    requires n <= |ops|
  {
    var client, lengths := ClientAfter(max, ops, n), PolledLengths(max, ops, n);
    client.offset == lengths.1 && |client.stderr| == lengths.0 && client.stderr <= BufferAfter(max, ops, n).stderr
  }

  lemma InStepNext(max: nat, ops: seq<Op>, n: nat)
    requires n < |ops| && InStep(max, ops, n)
    ensures ops[n].Poll? ==> (HoldsStderr(max, ops, n) <==> PollsMeet(max, ops, n))
    ensures (ops[n].Poll? ==> HoldsStderr(max, ops, n)) ==> InStep(max, ops, n + 1)
  {
    var client, b := ClientAfter(max, ops, n), BufferAfter(max, ops, n);
    BufferNext(max, ops, n);
    hide BufferAfter;
    StepExtends(b, max, ops[n]);
    ContinuesIff(client.stderr, b.stderr, client.offset);
  }

  /**
   * For every run: after each poll the client holds exactly stderr iff every poll meets the
   * one before it.
   */
  lemma {:induction false} ChainedPollsReassembleStderrIff(max: nat, ops: seq<Op>, n: nat)
    requires n <= |ops|
    ensures (forall i :: 0 <= i < n && ops[i].Poll? ==> HoldsStderr(max, ops, i))
            <==> (forall i :: 0 <= i < n && ops[i].Poll? ==> PollsMeet(max, ops, i))
    ensures (forall i :: 0 <= i < n && ops[i].Poll? ==> HoldsStderr(max, ops, i)) ==> InStep(max, ops, n)
  {
    hide HoldsStderr, PollsMeet;
    if n > 0 {
      ChainedPollsReassembleStderrIff(max, ops, n - 1);
      hide InStep;
      if forall i :: 0 <= i < n - 1 && ops[i].Poll? ==> HoldsStderr(max, ops, i) {
        InStepNext(max, ops, n - 1);
      }
    }
  }

  /** Three bytes on stdout, a poll, two bytes on stderr, a poll: the second poll returns no stderr. */
  lemma {:induction false} StderrCanBeLost(ops: seq<Op>)
    requires ops == [Offer(Stdout, [1, 2, 3]), Poll, Offer(Stderr, [4, 5]), Poll]
    ensures !PollsMeet(100, ops, 3)
    ensures ClientAfter(100, ops, 4).stderr == [] && BufferAfter(100, ops, 4).stderr == [4, 5]
  {
    BufferNext(100, ops, 0);
    BufferNext(100, ops, 1);
    BufferNext(100, ops, 2);
    BufferNext(100, ops, 3);
    assert BufferAfter(100, ops, 0) == EMPTY;
    hide BufferAfter;
    assert BufferAfter(100, ops, 1).stdout == [1, 2, 3] && BufferAfter(100, ops, 1).stderr == [];
    assert BufferAfter(100, ops, 3).stderr == [4, 5];
    assert PolledLengths(100, ops, 2) == (0, 3) && PolledLengths(100, ops, 3) == (0, 3);
    assert ClientAfter(100, ops, 1) == Client([], 0);
    assert ClientAfter(100, ops, 2) == Client([], 3);
    assert ClientAfter(100, ops, 3) == Client([], 3) && From([4, 5], 3) == [];
  }
}
