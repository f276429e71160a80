/** The collector's table of output buffers, updated in place. */
module OutputCollection {
  import opened Prelude
  import opened OutputStreams

  datatype CollectorError = ExecutionNotFound | InvalidStream | NegativeOffset

  datatype OutputData = OutputData(
    stdout: seq<Byte>, stderr: seq<Byte>, stdoutOffset: nat, stderrOffset: nat,
    complete: bool, exitCode: Option<int>, truncated: bool)

  function StreamNamed(name: string): Option<Stream> {
    if name == "stdout" then Some(Stdout)
    else if name == "stderr" then Some(Stderr)
    else None
  }

  class OutputBuffer {
    var stdout: seq<Byte>
    var stderr: seq<Byte>
    var complete: bool
    var exitCode: Option<int>
    var truncated: bool

    function Value(): Buffer
      reads this
    {
      Buffer(stdout, stderr, complete, exitCode, truncated)
    }

    constructor ()
      ensures Value() == EMPTY
    {
      stdout, stderr, complete, exitCode, truncated := [], [], false, None, false;
    }

    /** The section of `capture_output` under the buffer's lock. */
    method Capture(max: nat, s: Stream, data: seq<Byte>)
      modifies this
      ensures Value() == OutputStreams.Capture(old(Value()), max, s, data)
      ensures var room := max - old(|stdout| + |stderr|);
              var kept := if old(truncated) || room <= 0 then [] else if |data| > room then data[..room] else data;
              && stdout == (if s == Stdout then old(stdout) + kept else old(stdout))
              && stderr == (if s == Stderr then old(stderr) + kept else old(stderr))
              && (truncated <==> old(truncated) || (data != [] && |data| > room))
              && complete == old(complete) && exitCode == old(exitCode)
    {
      if truncated || data == [] {
        return;
      }
      var remaining := max - (|stdout| + |stderr|);
      if remaining <= 0 {
        truncated := true;
        return;
      }
      var kept := data;
      if |data| > remaining {
        kept := data[..remaining];
        truncated := true;
      }
      match s {
        case Stdout => stdout := stdout + kept;
        case Stderr => stderr := stderr + kept;
      }
    }
  }

  class OutputCollector {
    const maxSize: nat
    var outputs: map<Id, OutputBuffer>

    /** No two executions share a buffer object. */
    ghost predicate Valid()
      reads this
    {
      forall a, b :: a in outputs && b in outputs && a != b ==> outputs[a] != outputs[b]
    }

    /** The contents of every buffer. */
    ghost function View(): map<Id, Buffer>
      reads this, outputs.Values
    {
      map id | id in outputs :: outputs[id].Value()
    }

    constructor (maxSize: nat)
      ensures Valid() && View() == map[] && this.maxSize == maxSize
    {
      this.maxSize := maxSize;
      outputs := map[];
    }

    method CreateBuffer(id: Id)
      requires Valid()
      modifies this
      ensures Valid()
      ensures id in outputs
      ensures View() == if id in old(View()) then old(View()) else old(View())[id := EMPTY]
      ensures id !in old(outputs) ==>
          var b := outputs[id];
          b.stdout == b.stderr == [] && !b.complete && b.exitCode == None && !b.truncated
      ensures forall b :: b in outputs.Values && b !in old(outputs).Values ==> fresh(b)
    {
      if id !in outputs {
        var buffer := new OutputBuffer();
        outputs := outputs[id := buffer];
      }
    }

    method CaptureOutput(id: Id, stream: string, data: seq<Byte>) returns (r: Result<(), CollectorError>)
      requires Valid()
      modifies outputs.Values
      ensures Valid()
      ensures r.Success? <==> id in outputs && StreamNamed(stream).Some?
      ensures r.Success? ==>
          View() == old(View())[id := Capture(old(View())[id], maxSize, StreamNamed(stream).value, data)]
      ensures r.Failure? ==> View() == old(View())
      ensures r.Failure? ==> r.error == if id !in outputs then ExecutionNotFound else InvalidStream
      ensures r.Success? <==> id in outputs && (stream == "stdout" || stream == "stderr")
      ensures r.Success? ==>
          var b := outputs[id];
          var room := maxSize - old(|outputs[id].stdout| + |outputs[id].stderr|);
          var kept := if old(outputs[id].truncated) || room <= 0 then []
                      else if |data| > room then data[..room] else data;
          && b.stdout == old(outputs[id].stdout) + (if stream == "stdout" then kept else [])
          && b.stderr == old(outputs[id].stderr) + (if stream == "stderr" then kept else [])
          && (b.truncated <==> old(outputs[id].truncated) || (data != [] && |data| > room))
          && b.complete == old(outputs[id].complete) && b.exitCode == old(outputs[id].exitCode)
    {
      if id !in outputs {
        return Failure(ExecutionNotFound);
      }
      var buffer := outputs[id];
      match StreamNamed(stream) {
        case None =>
          return Failure(InvalidStream);
        case Some(s) =>
          buffer.Capture(maxSize, s, data);
          return Success(());
      }
    }

    method MarkComplete(id: Id, exitCode: int) returns (r: Result<(), CollectorError>)
      requires Valid()
      modifies outputs.Values
      ensures Valid()
      ensures r == if id in outputs then Success(()) else Failure(ExecutionNotFound)
      ensures View() == if id in outputs then old(View())[id := OutputStreams.MarkComplete(old(View())[id], exitCode)]
                        else old(View())
      ensures id in outputs ==>
          var b := outputs[id];
          && b.complete && b.exitCode == Some(exitCode)
          && b.stdout == old(outputs[id].stdout) && b.stderr == old(outputs[id].stderr)
          && b.truncated == old(outputs[id].truncated)
    {
      if id !in outputs {
        return Failure(ExecutionNotFound);
      }
      var buffer := outputs[id];
      buffer.complete := true;
      buffer.exitCode := Some(exitCode);
      return Success(());
    }

    method GetOutput(id: Id, offset: int) returns (r: Result<OutputData, CollectorError>)
      requires Valid()
      ensures offset < 0 ==> r == Failure(NegativeOffset)
      ensures offset >= 0 && id !in outputs ==> r == Failure(ExecutionNotFound)
      ensures offset >= 0 && id in outputs ==>
          var b := outputs[id].Value();
          r == Success(OutputData(From(b.stdout, offset), From(b.stderr, offset), |b.stdout|, |b.stderr|,
                                  b.complete, b.exitCode, b.truncated))
      ensures r.Success? ==>
          var out, err := outputs[id].stdout, outputs[id].stderr;
          && r.value.stdout == (if offset <= |out| then out[offset..] else [])
          && r.value.stderr == (if offset <= |err| then err[offset..] else [])
          && r.value.stdoutOffset == |out| && r.value.stderrOffset == |err|
    {
      if offset < 0 {
        return Failure(NegativeOffset);
      }
      if id !in outputs {
        return Failure(ExecutionNotFound);
      }
      var buffer := outputs[id];
      return Success(OutputData(
        From(buffer.stdout, offset), From(buffer.stderr, offset), |buffer.stdout|, |buffer.stderr|,
        buffer.complete, buffer.exitCode, buffer.truncated));
    }

    method RemoveOutput(id: Id)
      requires Valid()
      modifies this
      ensures Valid() && View() == old(View()) - {id} && outputs == old(outputs) - {id}
      ensures outputs.Values <= old(outputs).Values
    {
      if id in outputs {
        outputs := outputs - {id};
      }
    }
  }
}
