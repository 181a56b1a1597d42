// The four output bufferflows a serial port can be opened with. Each one
// receives the text read from the port and hands messages {P: port, D:
// data} to the hub's broadcast channel. The goroutine loops of the source
// become explicit steps: OnIncomingData is a receive on the input channel,
// Tick a firing of the 16 ms ticker and Close the send on `done`. The
// messages are kept as values in `output`, in the order they were sent;
// their JSON serialisation is left out.
module Bufferflows {
  import opened Bytes

  // SpPortMessage
  datatype PortMessage = PortMessage(P: string, D: string)

  // SpPortMessageRaw: its byte field is written as base64 by the JSON encoder.
  datatype RawMessage = RawMessage(P: string, D: seq<byte>)

  // Where a flow's consumeInput loop is: not started, looping, or exited.
  datatype LoopState = Created | Running | Stopped

  // The data of the messages, in order.
  function TextOf(ms: seq<PortMessage>): seq<string>
  {
    if ms == [] then [] else TextOf(ms[..|ms| - 1]) + [ms[|ms| - 1].D]
  }

  function BytesOf(ms: seq<RawMessage>): seq<seq<byte>>
  {
    if ms == [] then [] else BytesOf(ms[..|ms| - 1]) + [ms[|ms| - 1].D]
  }

  // What a timed flow keeps: nothing is lost or duplicated, the data sent
  // so far followed by the pending buffer being everything received; every
  // message carries the port and some data; a pending buffer has its port
  // recorded.
  ghost predicate TimedKept(port: string, output: seq<PortMessage>, sPort: string, buffered: string,
                            inputs: seq<string>)
  {
    Flatten(TextOf(output)) + buffered == Flatten(inputs) &&
    (forall i :: 0 <= i < |output| ==> output[i].P == port && output[i].D != "") &&
    (buffered != "" ==> sPort == port) &&
    (sPort == "" || sPort == port)
  }

  // The same for a byte buffer that can be nil, nil meaning empty.
  ghost predicate RawKept(port: string, output: seq<RawMessage>, sPort: string, buffered: seq<byte>, isNil: bool,
                          inputs: seq<seq<byte>>)
  {
    Flatten(BytesOf(output)) + buffered == Flatten(inputs) &&
    (forall i :: 0 <= i < |output| ==> output[i].P == port && output[i].D != []) &&
    (isNil <==> buffered == []) &&
    (!isNil ==> sPort == port) &&
    (sPort == "" || sPort == port)
  }

  // A chunk received is appended to the buffer under the port.
  lemma TimedReceived(port: string, output: seq<PortMessage>, sPort: string, buffered: string,
                      inputs: seq<string>, data: string)
    requires TimedKept(port, output, sPort, buffered, inputs)
    ensures TimedKept(port, output, port, buffered + data, inputs + [data])
  {
    FlattenSnoc(inputs, data);
    AppendAssoc(Flatten(TextOf(output)), buffered, data);
  }

  // A pending buffer sent as one message leaves nothing pending.
  lemma TimedSent(port: string, output: seq<PortMessage>, sPort: string, buffered: string, inputs: seq<string>)
    requires TimedKept(port, output, sPort, buffered, inputs) && buffered != ""
    ensures sPort == port
    ensures TimedKept(port, output + [PortMessage(sPort, buffered)], "", "", inputs)
  {
    var m := PortMessage(sPort, buffered);
    SentTextSnoc(output, m);
    AppendEmpty(Flatten(TextOf(output)) + m.D);
    assert forall i :: 0 <= i < |output| ==> (output + [m])[i] == output[i];
  }

  lemma RawReceived(port: string, output: seq<RawMessage>, sPort: string, buffered: seq<byte>, isNil: bool,
                    inputs: seq<seq<byte>>, data: seq<byte>)
    requires RawKept(port, output, sPort, buffered, isNil, inputs)
    ensures RawKept(port, output, port, buffered + data, isNil && data == [], inputs + [data])
  {
    FlattenSnoc(inputs, data);
    AppendAssoc(Flatten(BytesOf(output)), buffered, data);
  }

  lemma RawSent(port: string, output: seq<RawMessage>, sPort: string, buffered: seq<byte>, isNil: bool,
                inputs: seq<seq<byte>>)
    requires RawKept(port, output, sPort, buffered, isNil, inputs) && !isNil
    ensures sPort == port
    ensures RawKept(port, output + [RawMessage(sPort, buffered)], "", [], true, inputs)
  {
    var m := RawMessage(sPort, buffered);
    SentBytesSnoc(output, m);
    AppendEmpty(Flatten(BytesOf(output)) + m.D);
    assert forall i :: 0 <= i < |output| ==> (output + [m])[i] == output[i];
  }

  // The text sent grows by the data of a message sent.
  lemma SentTextSnoc(ms: seq<PortMessage>, m: PortMessage)
    ensures Flatten(TextOf(ms + [m])) == Flatten(TextOf(ms)) + m.D
  {
    assert (ms + [m])[..|ms|] == ms;
    FlattenSnoc(TextOf(ms), m.D);
  }

  lemma SentBytesSnoc(ms: seq<RawMessage>, m: RawMessage)
    ensures Flatten(BytesOf(ms + [m])) == Flatten(BytesOf(ms)) + m.D
  {
    assert (ms + [m])[..|ms|] == ms;
    FlattenSnoc(BytesOf(ms), m.D);
  }

  // ---------------------------------------------------------------------
  // bufferflow_default.go: one message per chunk, nothing retained.

  class DefaultFlow {
    const port: string
    var output: seq<PortMessage>
    var state: LoopState
    var inputClosed: bool
    var doneClosed: bool
    ghost var inputs: seq<string>

    ghost predicate Valid()
      reads this
    {
      |output| == |inputs| &&
      (forall i :: 0 <= i < |output| ==> output[i] == PortMessage(port, inputs[i])) &&
      (inputClosed <==> state == Stopped) &&
      (doneClosed <==> state == Stopped)
    }

    // NewBufferflowDefault
    constructor (port: string)
      ensures Valid() && this.port == port
      ensures output == [] && inputs == [] && state == Created
    {
      this.port := port;
      output, inputs := [], [];
      state := Created;
      inputClosed, doneClosed := false, false;
    }

    // Init starts the consumeInput loop.
    method Init()
      requires Valid() && state == Created
      modifies this
      ensures Valid() && state == Running
      ensures output == old(output) && inputs == old(inputs)
    {
      state := Running;
    }

    // OnIncomingData: the loop turns the chunk into exactly one message.
    method OnIncomingData(data: string)
      requires Valid() && state == Running
      modifies this
      ensures Valid() && state == Running
      ensures inputs == old(inputs) + [data]
      ensures output == old(output) + [PortMessage(port, data)]
    {
      output := output + [PortMessage(port, data)];
      inputs := inputs + [data];
    }

    // Close: `done` ends the loop, which then closes the input channel.
    method Close()
      requires Valid() && state == Running
      modifies this
      ensures Valid() && state == Stopped && inputClosed && doneClosed
      ensures output == old(output) && inputs == old(inputs)
    {
      state := Stopped;
      inputClosed, doneClosed := true, true;
    }
  }

  // ---------------------------------------------------------------------
  // bufferflow_timed.go: text is accumulated and sent on each tick.

  class TimedFlow {
    const port: string
    var output: seq<PortMessage>
    var state: LoopState
    var tickerStopped: bool
    var inputClosed: bool
    var sPort: string
    var bufferedOutput: string
    ghost var inputs: seq<string>

    // Nothing is lost or duplicated: the data sent so far followed by the
    // pending buffer is everything received. Every message carries the
    // port and some data.
    ghost predicate Valid()
      reads this
    {
      TimedKept(port, output, sPort, bufferedOutput, inputs) &&
      (inputClosed <==> state == Stopped) &&
      (tickerStopped <==> state == Stopped)
    }

    // NewBufferflowTimed
    constructor (port: string)
      ensures Valid() && this.port == port
      ensures output == [] && inputs == [] && bufferedOutput == "" && sPort == "" && state == Created
    {
      this.port := port;
      output, inputs := [], [];
      state := Created;
      tickerStopped, inputClosed := false, false;
      sPort, bufferedOutput := "", "";
    }

    method Init()
      requires Valid() && state == Created
      modifies this
      ensures Valid() && state == Running
      ensures output == old(output) && inputs == old(inputs) && bufferedOutput == old(bufferedOutput)
    {
      state := Running;
    }

    // A receive on the input channel appends to the buffer and records
    // the port; nothing is sent.
    method OnIncomingData(data: string)
      requires Valid() && state == Running
      modifies this
      ensures Valid() && state == Running
      ensures inputs == old(inputs) + [data]
      ensures bufferedOutput == old(bufferedOutput) + data && sPort == port
      ensures output == old(output)
    {
      TimedReceived(port, output, sPort, bufferedOutput, inputs, data);
      bufferedOutput := bufferedOutput + data;
      sPort := port;
      inputs := inputs + [data];
    }

    // A tick sends the whole buffer as one message when it is not empty,
    // then empties the buffer and the port; on an empty buffer it does
    // nothing.
    method Tick()
      requires Valid() && state == Running
      modifies this
      ensures Valid() && state == Running && inputs == old(inputs)
      ensures old(bufferedOutput) != "" ==>
        output == old(output) + [PortMessage(port, old(bufferedOutput))] &&
        bufferedOutput == "" && sPort == ""
      ensures old(bufferedOutput) == "" ==>
        output == old(output) && bufferedOutput == "" && sPort == old(sPort)
    {
      if bufferedOutput != "" {
        Flush();
      }
    }

    // The send of a tick on a non-empty buffer.
    method Flush()
      requires Valid() && bufferedOutput != ""
      modifies this`output, this`bufferedOutput, this`sPort
      ensures Valid()
      ensures output == old(output) + [PortMessage(port, old(bufferedOutput))]
      ensures bufferedOutput == "" && sPort == ""
    {
      TimedSent(port, output, sPort, bufferedOutput, inputs);
      output := output + [PortMessage(sPort, bufferedOutput)];
      bufferedOutput := "";
      sPort := "";
    }

    // Close stops the ticker and ends the loop without a last flush: the
    // pending buffer is never sent.
    method Close()
      requires Valid() && state == Running
      modifies this
      ensures Valid() && state == Stopped
      ensures output == old(output) && bufferedOutput == old(bufferedOutput) && inputs == old(inputs)
    {
      tickerStopped := true;
      state := Stopped;
      inputClosed := true;
    }
  }

  // ---------------------------------------------------------------------
  // bufferflow_timedraw.go: the same, over the bytes of the text. The
  // buffer starts nil and is reset to nil; appending no bytes to a nil
  // slice leaves it nil, so nil means empty.

  class TimedRawFlow {
    const port: string
    var output: seq<RawMessage>
    var state: LoopState
    var tickerStopped: bool
    var inputClosed: bool
    var sPortRaw: string
    var bufferedOutputRaw: seq<byte>
    var rawIsNil: bool
    ghost var inputs: seq<seq<byte>>

    ghost predicate Valid()
      reads this
    {
      RawKept(port, output, sPortRaw, bufferedOutputRaw, rawIsNil, inputs) &&
      (inputClosed <==> state == Stopped) &&
      (tickerStopped <==> state == Stopped)
    }

    // NewBufferflowTimedRaw
    constructor (port: string)
      ensures Valid() && this.port == port
      ensures output == [] && inputs == [] && rawIsNil && sPortRaw == "" && state == Created
    {
      this.port := port;
      output, inputs := [], [];
      state := Created;
      tickerStopped, inputClosed := false, false;
      sPortRaw, bufferedOutputRaw, rawIsNil := "", [], true;
    }

    method Init()
      requires Valid() && state == Created
      modifies this
      ensures Valid() && state == Running
      ensures output == old(output) && inputs == old(inputs) && bufferedOutputRaw == old(bufferedOutputRaw)
    {
      state := Running;
    }

    method OnIncomingData(data: string)
      requires Valid() && state == Running && IsByteString(data)
      modifies this
      ensures Valid() && state == Running
      ensures inputs == old(inputs) + [ToBytes(data)]
      ensures bufferedOutputRaw == old(bufferedOutputRaw) + ToBytes(data) && sPortRaw == port
      ensures rawIsNil == (old(rawIsNil) && data == "")
      ensures output == old(output)
    {
      var b := ToBytes(data);
      assert |b| == |data|;
      RawReceived(port, output, sPortRaw, bufferedOutputRaw, rawIsNil, inputs, b);
      bufferedOutputRaw := bufferedOutputRaw + b;
      rawIsNil := rawIsNil && b == [];
      sPortRaw := port;
      inputs := inputs + [b];
    }

    method Tick()
      requires Valid() && state == Running
      modifies this
      ensures Valid() && state == Running && inputs == old(inputs)
      ensures !old(rawIsNil) ==>
        output == old(output) + [RawMessage(port, old(bufferedOutputRaw))] &&
        rawIsNil && sPortRaw == ""
      ensures old(rawIsNil) ==>
        output == old(output) && rawIsNil && sPortRaw == old(sPortRaw)
    {
      if !rawIsNil {
        Flush();
      }
    }

    // The send of a tick on a non-nil buffer.
    method Flush()
      requires Valid() && !rawIsNil
      modifies this`output, this`bufferedOutputRaw, this`rawIsNil, this`sPortRaw
      ensures Valid()
      ensures output == old(output) + [RawMessage(port, old(bufferedOutputRaw))]
      ensures rawIsNil && sPortRaw == ""
    {
      RawSent(port, output, sPortRaw, bufferedOutputRaw, rawIsNil, inputs);
      output := output + [RawMessage(sPortRaw, bufferedOutputRaw)];
      bufferedOutputRaw, rawIsNil := [], true;
      sPortRaw := "";
    }

    method Close()
      requires Valid() && state == Running
      modifies this
      ensures Valid() && state == Stopped
      ensures output == old(output) && bufferedOutputRaw == old(bufferedOutputRaw) && inputs == old(inputs)
    {
      tickerStopped := true;
      state := Stopped;
      inputClosed := true;
    }
  }

  // ---------------------------------------------------------------------
  // bufferflow_timedbinary.go: the buffer and the port live in package
  // variables, shared by every flow of this kind.

  class BinaryBuffer {
    var bufferedOutputBinary: seq<byte>
    var isNil: bool
    var sPortBinary: string

    constructor ()
      ensures bufferedOutputBinary == [] && isNil && sPortBinary == ""
    {
      bufferedOutputBinary, isNil, sPortBinary := [], true, "";
    }
  }

  class TimedBinaryFlow {
    const Name: string
    const Port: string
    const pkg: BinaryBuffer
    var output: seq<RawMessage>
    var state: LoopState
    var tickerStopped: bool
    var inputClosed: bool
    ghost var inputs: seq<seq<byte>>

    // Valid only while no other flow touches the shared buffer.
    ghost predicate Valid()
      reads this, pkg
    {
      RawKept(Port, output, pkg.sPortBinary, pkg.bufferedOutputBinary, pkg.isNil, inputs) &&
      (state == Created ==> !tickerStopped && !inputClosed)
    }

    constructor (name: string, port: string, pkg: BinaryBuffer)
      ensures this.Name == name && this.Port == port && this.pkg == pkg
      ensures output == [] && inputs == [] && state == Created && !tickerStopped && !inputClosed
    {
      Name, Port, this.pkg := name, port, pkg;
      output, inputs := [], [];
      state := Created;
      tickerStopped, inputClosed := false, false;
    }

    // Init resets the package-level buffer and port, whatever another
    // flow had left there, and starts the loop.
    method Init()
      requires state == Created && !tickerStopped && !inputClosed && inputs == [] && output == []
      modifies this, pkg
      ensures Valid() && state == Running && !tickerStopped && !inputClosed
      ensures pkg.bufferedOutputBinary == [] && pkg.isNil && pkg.sPortBinary == ""
      ensures output == old(output) && inputs == old(inputs)
    {
      pkg.bufferedOutputBinary, pkg.isNil, pkg.sPortBinary := [], true, "";
      state := Running;
    }

    method OnIncomingDataBinary(data: seq<byte>)
      requires Valid() && state == Running && !inputClosed
      modifies this, pkg
      ensures Valid() && state == Running && !inputClosed
      ensures inputs == old(inputs) + [data] && output == old(output)
      ensures pkg.bufferedOutputBinary == old(pkg.bufferedOutputBinary) + data
      ensures pkg.isNil == (old(pkg.isNil) && data == []) && pkg.sPortBinary == Port
      ensures tickerStopped == old(tickerStopped)
    {
      RawReceived(Port, output, pkg.sPortBinary, pkg.bufferedOutputBinary, pkg.isNil, inputs, data);
      pkg.bufferedOutputBinary := pkg.bufferedOutputBinary + data;
      pkg.isNil := pkg.isNil && data == [];
      pkg.sPortBinary := Port;
      inputs := inputs + [data];
    }

    // The string entry point is not implemented and drops its data.
    method OnIncomingData(data: string)
    {
    }

    method Tick()
      requires Valid() && state == Running && !tickerStopped
      modifies this, pkg
      ensures Valid() && state == Running && inputs == old(inputs)
      ensures inputClosed == old(inputClosed) && tickerStopped == old(tickerStopped)
      ensures !old(pkg.isNil) ==>
        output == old(output) + [RawMessage(Port, old(pkg.bufferedOutputBinary))] &&
        pkg.isNil && pkg.sPortBinary == ""
      ensures old(pkg.isNil) ==>
        output == old(output) && pkg.isNil && pkg.sPortBinary == old(pkg.sPortBinary)
    {
      if !pkg.isNil {
        Flush();
      }
    }

    // The send of a tick on a non-nil shared buffer.
    method Flush()
      requires Valid() && !pkg.isNil
      modifies this`output, pkg
      ensures Valid()
      ensures output == old(output) + [RawMessage(Port, old(pkg.bufferedOutputBinary))]
      ensures pkg.isNil && pkg.sPortBinary == ""
    {
      RawSent(Port, output, pkg.sPortBinary, pkg.bufferedOutputBinary, pkg.isNil, inputs);
      output := output + [RawMessage(pkg.sPortBinary, pkg.bufferedOutputBinary)];
      pkg.bufferedOutputBinary, pkg.isNil := [], true;
      pkg.sPortBinary := "";
    }

    // Close stops the ticker and closes the input channel but never sends
    // on `done`: the loop keeps running.
    method Close()
      requires Valid() && state == Running && !inputClosed
      modifies this
      ensures Valid() && state == Running && tickerStopped && inputClosed
      ensures output == old(output) && inputs == old(inputs)
    {
      tickerStopped := true;
      inputClosed := true;
    }

    // After Close the loop keeps receiving the nil value of the closed
    // input channel: nothing is appended, the port is recorded again, and
    // with the ticker stopped nothing is ever sent.
    method ReceiveFromClosedInput()
      requires Valid() && state == Running && inputClosed
      modifies pkg
      ensures pkg.bufferedOutputBinary == old(pkg.bufferedOutputBinary) && pkg.isNil == old(pkg.isNil)
      ensures pkg.sPortBinary == Port
    {
      pkg.sPortBinary := Port;
    }
  }

  // The flow's answers to the flow-control questions are constants.
  function BinaryBlockUntilReady(cmd: string, id: string): (bool, bool)
  {
    (true, false)
  }

  function BinaryBreakApartCommands(cmd: string): seq<string>
  {
    [cmd]
  }

  predicate BinarySeeIfSpecificCommandsShouldSkipBuffer(cmd: string) { false }
  predicate BinarySeeIfSpecificCommandsShouldPauseBuffer(cmd: string) { false }
  predicate BinarySeeIfSpecificCommandsShouldUnpauseBuffer(cmd: string) { false }
  predicate BinarySeeIfSpecificCommandsShouldWipeBuffer(cmd: string) { false }
  predicate BinarySeeIfSpecificCommandsReturnNoResponse(cmd: string) { false }
  predicate BinaryIsBufferGloballySendingBackIncomingData() { true }

  // Whatever is sent through a binary flow goes straight to the port,
  // unsplit and never paused, skipped or wiped.
  lemma BinaryPolicies(cmd: string, id: string)
    ensures BinaryBlockUntilReady(cmd, id) == (true, false)
    ensures BinaryBreakApartCommands(cmd) == [cmd]
    ensures !BinarySeeIfSpecificCommandsShouldSkipBuffer(cmd) && !BinarySeeIfSpecificCommandsShouldPauseBuffer(cmd)
    ensures !BinarySeeIfSpecificCommandsShouldUnpauseBuffer(cmd) && !BinarySeeIfSpecificCommandsShouldWipeBuffer(cmd)
    ensures !BinarySeeIfSpecificCommandsReturnNoResponse(cmd) && BinaryIsBufferGloballySendingBackIncomingData()
  {
  }

  // A second binary flow's Init wipes whatever the first had buffered but
  // not yet sent, since both use the same package variables: the bytes
  // are in neither flow's output and no longer in the buffer.
  method SharedBufferWipe(a: TimedBinaryFlow, b: TimedBinaryFlow, data: seq<byte>) returns (lost: seq<byte>)
    requires a != b && a.pkg == b.pkg
    requires a.Valid() && a.state == Running && !a.inputClosed
    requires b.state == Created && !b.tickerStopped && !b.inputClosed && b.inputs == [] && b.output == []
    modifies a, b, a.pkg
    ensures lost == old(a.pkg.bufferedOutputBinary) + data
    ensures a.pkg.bufferedOutputBinary == [] && a.pkg.isNil
    ensures a.output == old(a.output) && b.output == []
  {
    a.OnIncomingDataBinary(data);
    lost := a.pkg.bufferedOutputBinary;
    b.Init();
  }
}
