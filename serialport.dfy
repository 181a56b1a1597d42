// serialport.go: an open serial port. The reader loop hands what it reads
// to the port's bufferflow; in "default" mode it first decodes UTF-8 and
// holds back bytes that do not form a rune yet. Each read of the device
// is given as a value (its bytes, its error, and whether a concurrent
// close had already set isClosing); messages for the hub's system
// broadcast are logged in `sys`, the strings handed to the bufferflow in
// `delivered`.
module SerialPort {
  import opened Bytes
  import opened Utf8
  import opened Strconv
  import opened Wrappers

  datatype ReadErr = NoErr | EOF | UnexpectedEOF | Failed(text: string)

  // err.Error()
  function ErrText(e: ReadErr): string
  {
    match e
    case NoErr => ""
    case EOF => "EOF"
    case UnexpectedEOF => "unexpected EOF"
    case Failed(t) => t
  }

  // `quick` stands for the clock: an empty, error-free read that comes
  // less than a millisecond after the loop's start or the previous such
  // read, which the loop takes for a port unplugged while open.
  datatype Read = Read(data: seq<byte>, err: ReadErr, closing: bool, quick: bool)

  datatype Stop = Reading | StoppedClosing | StoppedOnError

  // What the reader has done so far: the data handed to the bufferflow,
  // the reads it accepted (n > 0 without error), the bytes it holds back,
  // its system messages, and whether it has left its loop.
  datatype ReaderState = ReaderState(
    delivered: seq<seq<byte>>,
    accepted: seq<seq<byte>>,
    carry: seq<byte>,
    sys: seq<SysMsg>,
    stop: Stop)

  const Start := ReaderState([], [], [], [], Reading)

  predicate KnownBufType(buftype: string)
  {
    buftype == "timed" || buftype == "timedraw" || buftype == "default"
  }

  // The messages the port sends on the hub's system broadcast.
  datatype SysMsg =
    | ReaderShutdown
    | EofOpenFail(err: ReadErr)
    | ReadError(err: ReadErr)
    | ReadOpenFail(err: ReadErr)
    | ClosingPort
    | WriteError(text: string)
    | WriterShutdown
    | RawWriterClosed
    | BufferedWriterClosed
    | PortListRefreshed  // updateSerialPortList then spList: the port list is re-read and broadcast

  // The text of each message; the list spList broadcasts is made by code
  // outside this model.
  function Render(m: SysMsg, name: string, baud: int): string
    requires !m.PortListRefreshed?
  {
    match m
    case ReaderShutdown => "Shutting down reader on " + name
    case EofOpenFail(e) =>
      "{\"Cmd\":\"OpenFail\",\"Desc\":\"Got EOF (End of File) on port which usually means another app other than Serial Port JSON Server is locking your port. "
        + ErrText(e) + "\",\"Port\":\"" + name + "\",\"Baud\":" + Itoa(baud) + "}"
    case ReadError(e) => "Error reading on " + name + " " + ErrText(e) + " Closing port."
    case ReadOpenFail(e) =>
      "{\"Cmd\":\"OpenFail\",\"Desc\":\"Got error reading on port. " + ErrText(e) + "\",\"Port\":\"" + name + "\",\"Baud\":" + Itoa(baud) + "}"
    case ClosingPort => "Closing serial port " + name
    case WriteError(t) => "Error writing to " + name + " " + t + " Closing port."
    case WriterShutdown => "Shutting down writer on " + name
    case RawWriterClosed => "writerRaw just got closed. make sure you make a new one. port:" + name
    case BufferedWriterClosed => "writerBuffered just got closed. make sure you make a new one. port:" + name
  }

  // Handing n > 0 bytes read without error to the bufferflow.
  function Accept(buftype: string, st: ReaderState, data: seq<byte>): (r: ReaderState)
    requires KnownBufType(buftype)
    ensures r.accepted == st.accepted + [data] && r.sys == st.sys && r.stop == st.stop
    ensures st.delivered < r.delivered && |r.delivered| == |st.delivered| + 1
    ensures buftype != "default" ==> r.delivered[|st.delivered|] == data && r.carry == st.carry
  {
    if buftype == "default" then
      var d := DecodeAll(st.carry + data);
      st.(delivered := st.delivered + [d.0], accepted := st.accepted + [data], carry := d.1)
    else
      st.(delivered := st.delivered + [data], accepted := st.accepted + [data])
  }

  // One iteration of the reader loop.
  function Step(buftype: string, name: string, baud: int, st: ReaderState, r: Read): (s: ReaderState)
    requires KnownBufType(buftype)
    ensures !st.stop.Reading? ==> s == st
    ensures st.sys <= s.sys
    ensures |s.delivered| - |st.delivered| == |s.accepted| - |st.accepted| <= 1
    ensures |s.accepted| > |st.accepted| <==> Accepted(st, r)
  {
    if !st.stop.Reading? then st
    else if r.closing then
      st.(sys := st.sys + [ReaderShutdown], stop := StoppedClosing)
    else
      var st1 := if |r.data| > 0 && r.err.NoErr? then Accept(buftype, st, r.data) else st;
      if |r.data| > 0 then st1
      else
        var st2 := if r.err.EOF? || r.err.UnexpectedEOF? then st1.(sys := st1.sys + [EofOpenFail(r.err)]) else st1;
        if r.err.NoErr? then (if r.quick then st2.(stop := StoppedOnError) else st2)
        else st2.(sys := st2.sys + [ReadError(r.err), ReadOpenFail(r.err)], stop := StoppedOnError)
  }

  // The reader after the given reads.
  function Run(buftype: string, name: string, baud: int, rds: seq<Read>): (s: ReaderState)
    requires KnownBufType(buftype)
    ensures |s.delivered| == |s.accepted| <= |rds|
  {
    if rds == [] then Start
    else Step(buftype, name, baud, Run(buftype, name, baud, rds[..|rds| - 1]), rds[|rds| - 1])
  }

  // Once the loop is left, later reads change nothing.
  lemma {:induction false} RunStopped(buftype: string, name: string, baud: int, rds: seq<Read>, k: nat)
    requires KnownBufType(buftype) && k <= |rds|
    requires !Run(buftype, name, baud, rds[..k]).stop.Reading?
    ensures Run(buftype, name, baud, rds) == Run(buftype, name, baud, rds[..k])
    decreases |rds| - k
  {
    if k < |rds| {
      var init := rds[..|rds| - 1];
      assert init[..k] == rds[..k];
      RunStopped(buftype, name, baud, init, k);
      assert rds[..|rds|] == rds;
    } else {
      assert rds[..k] == rds;
    }
  }

  // ---------------------------------------------------------------------
  // Properties of the reader.

  // Nothing lost or duplicated so far, and what is held back, if
  // anything, is where decoding failed.
  ghost predicate Conserves(st: ReaderState)
  {
    Flatten(st.delivered) + st.carry == Flatten(st.accepted) &&
    DecodeAll(st.carry) == ([], st.carry)
  }

  // Whether a read is handed on: the loop is running, no close was seen,
  // and the read returned bytes without an error.
  predicate Accepted(st: ReaderState, r: Read)
  {
    st.stop.Reading? && !r.closing && |r.data| > 0 && r.err.NoErr?
  }

  lemma StepEffect(buftype: string, name: string, baud: int, st: ReaderState, r: Read)
    requires KnownBufType(buftype)
    ensures var s := Step(buftype, name, baud, st, r);
      if Accepted(st, r) then s == Accept(buftype, st, r.data)
      else s.delivered == st.delivered && s.accepted == st.accepted && s.carry == st.carry
  {
  }

  // The loop ends on a close, on a failed read that brought no bytes,
  // and on an empty read that follows the previous one too quickly; only
  // the close is not an error.
  lemma StepStops(buftype: string, name: string, baud: int, st: ReaderState, r: Read)
    requires KnownBufType(buftype) && st.stop.Reading?
    ensures var s := Step(buftype, name, baud, st, r);
      (s.stop.StoppedClosing? <==> r.closing) &&
      (s.stop.StoppedOnError? <==> !r.closing && |r.data| == 0 && (!r.err.NoErr? || r.quick))
  {
  }

  lemma AcceptConserves(st: ReaderState, data: seq<byte>)
    requires Conserves(st)
    ensures Conserves(Accept("default", st, data))
  {
    var b := st.carry + data;
    var d := DecodeAll(b);
    var s := Accept("default", st, data);
    assert s.delivered == st.delivered + [d.0] && s.accepted == st.accepted + [data] && s.carry == d.1;
    DecodeAllSplits(b);
    HeldBackStuck(b);
    FlattenSnoc(st.delivered, d.0);
    FlattenSnoc(st.accepted, data);
    Regroup(Flatten(st.delivered), d.0, d.1, st.carry, data);
  }

  lemma Regroup(e: seq<byte>, d0: seq<byte>, d1: seq<byte>, c: seq<byte>, x: seq<byte>)
    requires d0 + d1 == c + x
    ensures (e + d0) + d1 == (e + c) + x
  {
    calc {
      (e + d0) + d1;
      e + (d0 + d1);
      e + (c + x);
      (e + c) + x;
    }
  }

  lemma StepConserves(name: string, baud: int, st: ReaderState, r: Read)
    requires Conserves(st)
    ensures Conserves(Step("default", name, baud, st, r))
  {
    StepEffect("default", name, baud, st, r);
    if Accepted(st, r) {
      AcceptConserves(st, r.data);
    }
  }

  // In "default" mode nothing is lost or duplicated: the data handed on,
  // followed by what is held back, is every accepted read in order.
  lemma {:induction false} RunConserves(name: string, baud: int, rds: seq<Read>)
    ensures Conserves(Run("default", name, baud, rds))
    decreases |rds|
  {
    if rds != [] {
      RunConserves(name, baud, rds[..|rds| - 1]);
      StepConserves(name, baud, Run("default", name, baud, rds[..|rds| - 1]), rds[|rds| - 1]);
    }
  }

  // In the timed modes the reads are handed on unchanged.
  lemma {:induction false} RunTimedPassesThrough(buftype: string, name: string, baud: int, rds: seq<Read>)
    requires buftype == "timed" || buftype == "timedraw"
    ensures Run(buftype, name, baud, rds).delivered == Run(buftype, name, baud, rds).accepted
    ensures Run(buftype, name, baud, rds).carry == []
    decreases |rds|
  {
    if rds != [] {
      RunTimedPassesThrough(buftype, name, baud, rds[..|rds| - 1]);
    }
  }

  lemma {:induction false} FlattenPrefix(xs: seq<seq<byte>>, ys: seq<seq<byte>>)
    requires xs <= ys
    ensures Flatten(xs) <= Flatten(ys)
  {
    assert ys == xs + ys[|xs|..];
    FlattenAppend(xs, ys[|xs|..]);
  }

  // The data handed on ends on a rune boundary of the decodable stream `s`.
  ghost predicate OnBoundary(st: ReaderState, s: seq<byte>)
  {
    |Flatten(st.delivered)| <= |s| && Decodable(s[|Flatten(st.delivered)|..])
  }

  lemma SuffixStart(s: seq<byte>, e: seq<byte>, b: seq<byte>)
    requires e + b <= s
    ensures b <= s[|e|..]
  {
    assert s[|e|..][..|b|] == (e + b)[|e|..];
  }

  lemma DropTwice(s: seq<byte>, e: seq<byte>, d: seq<byte>)
    requires |e| + |d| <= |s|
    ensures s[|e|..][|d|..] == s[|e + d|..]
  {
  }

  lemma AcceptBoundary(st: ReaderState, data: seq<byte>, s: seq<byte>)
    requires Conserves(st) && Decodable(s) && OnBoundary(st, s)
    requires Flatten(st.accepted) + data <= s
    ensures OnBoundary(Accept("default", st, data), s)
  {
    var e0 := Flatten(st.delivered);
    var b := st.carry + data;
    var d := DecodeAll(b).0;
    var n := Accept("default", st, data);
    assert n.delivered == st.delivered + [d];
    FlattenSnoc(st.delivered, d);
    Regroup(e0, st.carry, data, b, []);
    assert e0 + b + [] == e0 + b;
    SuffixStart(s, e0, b);
    PrefixBoundary(b, s[|e0|..]);
    DropTwice(s, e0, d);
  }

  lemma StepBoundary(name: string, baud: int, st: ReaderState, r: Read, s: seq<byte>)
    requires Conserves(st) && Decodable(s) && OnBoundary(st, s)
    requires Flatten(Step("default", name, baud, st, r).accepted) <= s
    ensures OnBoundary(Step("default", name, baud, st, r), s)
  {
    StepEffect("default", name, baud, st, r);
    if Accepted(st, r) {
      FlattenSnoc(st.accepted, r.data);
      AcceptBoundary(st, r.data, s);
    }
  }

  // If everything accepted so far is the start of a decodable stream, the
  // data handed on ends on a rune boundary of that stream.
  lemma {:induction false} RunBoundary(name: string, baud: int, rds: seq<Read>, s: seq<byte>)
    requires Decodable(s) && Flatten(Run("default", name, baud, rds).accepted) <= s
    ensures OnBoundary(Run("default", name, baud, rds), s)
    decreases |rds|
  {
    if rds == [] {
      assert s[0..] == s;
    } else {
      var init := rds[..|rds| - 1];
      var r := rds[|rds| - 1];
      var pre := Run("default", name, baud, init);
      StepEffect("default", name, baud, pre, r);
      assert pre.accepted <= Run("default", name, baud, rds).accepted;
      FlattenPrefix(pre.accepted, Run("default", name, baud, rds).accepted);
      RunBoundary(name, baud, init, s);
      RunConserves(name, baud, init);
      StepBoundary(name, baud, pre, r, s);
    }
  }

  // When the accepted reads together are decodable, for instance valid
  // UTF-8 split anywhere into reads, every rune is handed on whole and
  // nothing stays held back.
  lemma DecodableStreamDelivered(name: string, baud: int, rds: seq<Read>)
    requires Decodable(Flatten(Run("default", name, baud, rds).accepted))
    ensures Run("default", name, baud, rds).carry == []
    ensures Flatten(Run("default", name, baud, rds).delivered) == Flatten(Run("default", name, baud, rds).accepted)
  {
    var st := Run("default", name, baud, rds);
    var s := Flatten(st.accepted);
    RunConserves(name, baud, rds);
    RunBoundary(name, baud, rds, s);
    assert s[|Flatten(st.delivered)|..] == st.carry;
  }

  // Once a byte that cannot start a rune, or an encoded U+FFFD, is held
  // back, every later read is appended to what is held back and the
  // bufferflow only receives empty strings.
  lemma StuckCarry(name: string, baud: int, st: ReaderState, r: Read)
    requires st.stop.Reading? && Blocking(st.carry)
    requires !r.closing && |r.data| > 0 && r.err.NoErr?
    ensures var s := Step("default", name, baud, st, r);
      s.carry == st.carry + r.data && Blocking(s.carry) && s.delivered == st.delivered + [[]]
  {
    BlockingStays(st.carry, r.data);
  }

  // The cheese emoji U+1F9C0 (F0 9F A7 80) split over two reads is held
  // back after the first and handed on whole after the second.
  lemma SplitRuneJoined(name: string, baud: int)
    ensures var st := Run("default", name, baud, [Read([0xF0, 0x9F], NoErr, false, false), Read([0xA7, 0x80], NoErr, false, false)]);
      st.delivered == [[], [0xF0, 0x9F, 0xA7, 0x80]] && st.carry == []
  {
    var r1 := Read([0xF0, 0x9F], NoErr, false, false);
    var r2 := Read([0xA7, 0x80], NoErr, false, false);
    var rs := [r1, r2];
    assert rs[..1] == [r1];
    assert [r1][..0] == [];
    IncompleteHeldBack([0xF0, 0x9F]);
    assert Run("default", name, baud, []) == Start;
    var st1 := Run("default", name, baud, [r1]);
    assert st1 == Step("default", name, baud, Run("default", name, baud, [r1][..0]), r1);
    assert [] + [0xF0, 0x9F] == [0xF0, 0x9F];
    assert st1 == ReaderState([[]], [[0xF0, 0x9F]], [0xF0, 0x9F], [], Reading);
    var b: seq<byte> := [0xF0, 0x9F, 0xA7, 0x80];
    assert st1.carry + r2.data == b;
    assert DecodeRune(b) == (0x1F9C0, 4);
    EncodeDecoded(b);
    assert b[..4] == b && b[4..] == [];
    assert DecodeAll(b[4..]) == ([], []);
    DecodeAllStep(b);
    assert EncodeRune(0x1F9C0) == b;
    assert b + [] == b;
    assert DecodeAll(b) == (b, []);
    assert Run("default", name, baud, rs) == Step("default", name, baud, st1, r2);
  }

  // ---------------------------------------------------------------------
  // The port.

  // utf8.DecodeRune over the buffer, rune by rune, as the reader's inner
  // loop does.
  method DecodeChunk(buf: seq<byte>) returns (data: seq<byte>, held: seq<byte>)
    ensures data == DecodeAll(buf).0 && held == DecodeAll(buf).1
  {
    ghost var total := DecodeAll(buf);
    var i := 0;
    data := [];
    assert buf[0..] == buf;
    while i < |buf|
      invariant 0 <= i <= |buf|
      invariant total.0 == data + DecodeAll(buf[i..]).0
      invariant total.1 == DecodeAll(buf[i..]).1
      decreases |buf| - i
    {
      var stop, data', i' := DecodeOne(buf, i, data, total);
      if stop {
        held := buf[i..];
        return;
      }
      data, i := data', i';
    }
    assert buf[i..] == [];
    held := [];
  }

  // One rune of the loop: a decoding error stops it with the rest held;
  // otherwise the rune's encoding is appended and the position moves past
  // it. `total` is what the whole buffer decodes to.
  method DecodeOne(buf: seq<byte>, i: nat, data: seq<byte>, ghost total: (seq<byte>, seq<byte>))
    returns (stop: bool, data': seq<byte>, i': nat)
    requires i < |buf|
    requires total.0 == data + DecodeAll(buf[i..]).0
    requires total.1 == DecodeAll(buf[i..]).1
    ensures stop ==> total == (data, buf[i..])
    ensures !stop ==> (i < i' <= |buf|
      && total.0 == data' + DecodeAll(buf[i'..]).0
      && total.1 == DecodeAll(buf[i'..]).1)
  {
    var dr := DecodeRune(buf[i..]);
    if dr.0 == RuneError {
      DecodeStopsAt(buf, i, data, total);
      return true, data, i;
    }
    data' := data + EncodeRune(dr.0);
    i' := i + dr.1;
    DecodeAdvance(buf, i, data, total, data', i');
    stop := false;
  }

  lemma DecodeStopsAt(buf: seq<byte>, i: nat, data: seq<byte>, total: (seq<byte>, seq<byte>))
    requires i < |buf| && DecodeRune(buf[i..]).0 == RuneError
    requires total.0 == data + DecodeAll(buf[i..]).0
    requires total.1 == DecodeAll(buf[i..]).1
    ensures total == (data, buf[i..])
  {
    DecodeAllStep(buf[i..]);
    AppendEmpty(data);
  }

  lemma DecodeAdvance(buf: seq<byte>, i: nat, data: seq<byte>, total: (seq<byte>, seq<byte>), data': seq<byte>, i': nat)
    requires i < |buf| && DecodeRune(buf[i..]).0 != RuneError
    requires total.0 == data + DecodeAll(buf[i..]).0
    requires total.1 == DecodeAll(buf[i..]).1
    requires data' == data + EncodeRune(DecodeRune(buf[i..]).0)
    requires i' == i + DecodeRune(buf[i..]).1
    ensures i < i' <= |buf|
    ensures total.0 == data' + DecodeAll(buf[i'..]).0
    ensures total.1 == DecodeAll(buf[i'..]).1
  {
    var dr := DecodeRune(buf[i..]);
    DecodeAllStep(buf[i..]);
    assert buf[i..][dr.1..] == buf[i'..];
    AppendAssoc(data, EncodeRune(dr.0), DecodeAll(buf[i'..]).0);
  }

  class SerPort {
    const name: string
    const baud: int
    const bufferType: string
    var isClosing: bool
    var isClosingDueToError: bool
    var itemsInBuffer: int
    var delivered: seq<seq<byte>>
    var sys: seq<SysMsg>
    var flowClosed: bool
    var ioClosed: bool
    var written: seq<seq<byte>>
    var noBuf: seq<seq<byte>>
    var sendChannelsClosed: bool

    constructor (name: string, baud: int, bufferType: string)
      ensures this.name == name && this.baud == baud && this.bufferType == bufferType
      ensures !isClosing && !isClosingDueToError && itemsInBuffer == 0
      ensures delivered == [] && sys == [] && written == [] && noBuf == []
      ensures !flowClosed && !ioClosed && !sendChannelsClosed
    {
      this.name, this.baud, this.bufferType := name, baud, bufferType;
      isClosing, isClosingDueToError := false, false;
      itemsInBuffer := 0;
      delivered, sys, written, noBuf := [], [], [], [];
      flowClosed, ioClosed, sendChannelsClosed := false, false, false;
    }

    // The port's fields show the reader state `st` on top of what they
    // held before the reader started.
    ghost predicate Tracks(st: ReaderState, d0: seq<seq<byte>>, s0: seq<SysMsg>, c0: bool, e0: bool)
      reads this
    {
      delivered == d0 + st.delivered && sys == s0 + st.sys &&
      isClosing == (c0 || st.stop.StoppedClosing?) &&
      isClosingDueToError == (e0 || st.stop.StoppedOnError?)
    }

    // One iteration of the reader loop.
    method ReadOnce(buftype: string, r: Read, carry: seq<byte>, ghost st: ReaderState,
                    ghost d0: seq<seq<byte>>, ghost s0: seq<SysMsg>, ghost c0: bool, ghost e0: bool)
      returns (held: seq<byte>, done: bool)
      requires KnownBufType(buftype) && st.stop.Reading? && carry == st.carry
      requires Tracks(st, d0, s0, c0, e0)
      modifies this
      ensures var next := Step(buftype, name, baud, st, r);
        Tracks(next, d0, s0, c0, e0) && held == next.carry && (done <==> !next.stop.Reading?)
      ensures itemsInBuffer == old(itemsInBuffer) && written == old(written) && noBuf == old(noBuf)
      ensures flowClosed == old(flowClosed) && ioClosed == old(ioClosed)
      ensures sendChannelsClosed == old(sendChannelsClosed)
    {
      held, done := carry, false;
      if r.closing {
        isClosing := true;
        sys := sys + [ReaderShutdown];
        done := true;
        return;
      }
      if |r.data| > 0 && r.err.NoErr? {
        if buftype == "default" {
          var data;
          data, held := DecodeChunk(carry + r.data);
          delivered := delivered + [data];
        } else {
          delivered := delivered + [r.data];
        }
      }
      if |r.data| == 0 {
        if r.err.EOF? || r.err.UnexpectedEOF? {
          sys := sys + [EofOpenFail(r.err)];
        }
        if !r.err.NoErr? {
          sys := sys + [ReadError(r.err), ReadOpenFail(r.err)];
          isClosingDueToError := true;
          done := true;
        } else if r.quick {
          isClosingDueToError := true;
          done := true;
        }
      }
    }

    // reader: loops over the reads until a close is seen or a read fails;
    // a failure closes the bufferflow and the device and broadcasts the
    // refreshed port list (spCloseReal).
    method Reader(buftype: string, rds: seq<Read>)
      requires KnownBufType(buftype)
      modifies this
      ensures var st := Run(buftype, name, baud, rds);
        delivered == old(delivered) + st.delivered &&
        sys == old(sys) + st.sys + (if isClosingDueToError then [PortListRefreshed] else []) &&
        isClosing == (old(isClosing) || st.stop.StoppedClosing?) &&
        isClosingDueToError == (old(isClosingDueToError) || st.stop.StoppedOnError?) &&
        flowClosed == (old(flowClosed) || isClosingDueToError) &&
        ioClosed == (old(ioClosed) || isClosingDueToError)
      ensures itemsInBuffer == old(itemsInBuffer) && written == old(written) && noBuf == old(noBuf)
      ensures sendChannelsClosed == old(sendChannelsClosed)
    {
      ReadLoop(buftype, rds);
      if isClosingDueToError {
        SpCloseReal();
      }
    }

    // The loop of reader, up to the close that follows it.
    method ReadLoop(buftype: string, rds: seq<Read>)
      requires KnownBufType(buftype)
      modifies this
      ensures Tracks(Run(buftype, name, baud, rds), old(delivered), old(sys), old(isClosing), old(isClosingDueToError))
      ensures flowClosed == old(flowClosed) && ioClosed == old(ioClosed)
      ensures itemsInBuffer == old(itemsInBuffer) && written == old(written) && noBuf == old(noBuf)
      ensures sendChannelsClosed == old(sendChannelsClosed)
    {
      ghost var d0, s0, c0, e0 := delivered, sys, isClosing, isClosingDueToError;
      var carry: seq<byte> := [];
      var k := 0;
      var done := false;
      ghost var st := Start;
      while k < |rds| && !done
        invariant 0 <= k <= |rds|
        invariant st == Run(buftype, name, baud, rds[..k])
        invariant done <==> !st.stop.Reading?
        invariant carry == st.carry
        invariant Tracks(st, d0, s0, c0, e0)
        invariant flowClosed == old(flowClosed) && ioClosed == old(ioClosed)
        invariant itemsInBuffer == old(itemsInBuffer) && written == old(written) && noBuf == old(noBuf)
        invariant sendChannelsClosed == old(sendChannelsClosed)
        decreases |rds| - k
      {
        assert rds[..k + 1][..k] == rds[..k];
        carry, done := ReadOnce(buftype, rds[k], carry, st, d0, s0, c0, e0);
        st := Step(buftype, name, baud, st, rds[k]);
        k := k + 1;
      }
      if done {
        RunStopped(buftype, name, baud, rds, k);
      } else {
        assert rds[..k] == rds;
      }
    }

    // spCloseReal: closes the bufferflow and the device, then refreshes
    // and broadcasts the port list.
    method SpCloseReal()
      modifies this
      ensures flowClosed && ioClosed
      ensures sys == old(sys) + [PortListRefreshed]
      ensures delivered == old(delivered) && isClosing == old(isClosing)
      ensures isClosingDueToError == old(isClosingDueToError) && itemsInBuffer == old(itemsInBuffer)
      ensures written == old(written) && noBuf == old(noBuf) && sendChannelsClosed == old(sendChannelsClosed)
    {
      flowClosed := true;
      ioClosed := true;
      sys := sys + [PortListRefreshed];
    }

    // spHandlerClose: marks the port as closing, announces it and closes
    // it for real, which broadcasts the refreshed port list.
    method SpHandlerClose()
      modifies this
      ensures isClosing && flowClosed && ioClosed
      ensures sys == old(sys) + [ClosingPort, PortListRefreshed]
      ensures delivered == old(delivered) && itemsInBuffer == old(itemsInBuffer)
      ensures written == old(written) && noBuf == old(noBuf)
      ensures isClosingDueToError == old(isClosingDueToError) && sendChannelsClosed == old(sendChannelsClosed)
    {
      isClosing := true;
      sys := sys + [ClosingPort];
      SpCloseReal();
    }

    // writerNoBuf: each message taken from sendNoBuf lowers itemsInBuffer
    // by one and is written; a failed write ends the loop, after which the
    // device is closed and the port list refreshed and broadcast. `errs[i]` is the error writing msgs[i] returns.
    method WriterNoBuf(msgs: seq<seq<byte>>, errs: seq<Option<string>>)
      requires |errs| == |msgs|
      modifies this
      ensures var t := Taken(errs);
        written == old(written) + msgs[..t] && itemsInBuffer == old(itemsInBuffer) - t
      ensures var t := Taken(errs);
        sys == old(sys) + (if t > 0 && errs[t - 1].Some? then [WriteError(errs[t - 1].value)] else [])
          + [WriterShutdown, PortListRefreshed]
      ensures ioClosed && delivered == old(delivered) && noBuf == old(noBuf)
    {
      var k := 0;
      var failed := false;
      while k < |msgs| && !failed
        invariant 0 <= k <= |msgs|
        invariant failed ==> k >= 1 && errs[k - 1].Some? && Taken(errs) == k
        invariant !failed ==> forall j :: 0 <= j < k ==> errs[j].None?
        invariant written == old(written) + msgs[..k] && itemsInBuffer == old(itemsInBuffer) - k
        invariant sys == old(sys) + (if failed then [WriteError(errs[k - 1].value)] else [])
        invariant delivered == old(delivered) && noBuf == old(noBuf)
        decreases |msgs| - k
      {
        itemsInBuffer := itemsInBuffer - 1;
        written := written + [msgs[k]];
        assert msgs[..k + 1] == msgs[..k] + [msgs[k]];
        if errs[k].Some? {
          sys := sys + [WriteError(errs[k].value)];
          failed := true;
          TakenAt(errs, k);
        }
        k := k + 1;
      }
      if !failed {
        TakenAll(errs);
      }
      sys := sys + [WriterShutdown];
      ioClosed := true;
      sys := sys + [PortListRefreshed];
    }

    // writerBuffered: every message taken from sendBuffered is passed on,
    // as its bytes, to the unbuffered writer, in order; once the channel is
    // closed the end of the loop is announced.
    method WriterBuffered(msgs: seq<string>)
      requires forall i :: 0 <= i < |msgs| ==> IsByteString(msgs[i])
      modifies this
      ensures |noBuf| == |old(noBuf)| + |msgs|
      ensures noBuf[..|old(noBuf)|] == old(noBuf)
      ensures forall i :: 0 <= i < |msgs| ==> noBuf[|old(noBuf)| + i] == ToBytes(msgs[i])
      ensures sys == old(sys) + [BufferedWriterClosed]
      ensures written == old(written) && delivered == old(delivered) && itemsInBuffer == old(itemsInBuffer)
    {
      for k := 0 to |msgs|
        invariant |noBuf| == |old(noBuf)| + k && noBuf[..|old(noBuf)|] == old(noBuf)
        invariant forall i :: 0 <= i < k ==> noBuf[|old(noBuf)| + i] == ToBytes(msgs[i])
        invariant sys == old(sys) && written == old(written) && delivered == old(delivered)
        invariant itemsInBuffer == old(itemsInBuffer)
      {
        noBuf := noBuf + [ToBytes(msgs[k])];
      }
      sys := sys + [BufferedWriterClosed];
    }

    // writerRaw: every message is base64-decoded and the decoded bytes are
    // passed on, also when decoding reported an error. `decode` stands for
    // base64.StdEncoding.DecodeString (bytes, and whether it failed).
    method WriterRaw(msgs: seq<string>, decode: string -> (seq<byte>, bool))
      modifies this
      ensures |noBuf| == |old(noBuf)| + |msgs|
      ensures noBuf[..|old(noBuf)|] == old(noBuf)
      ensures forall i :: 0 <= i < |msgs| ==> noBuf[|old(noBuf)| + i] == decode(msgs[i]).0
      ensures sys == old(sys) + [RawWriterClosed]
      ensures written == old(written) && delivered == old(delivered) && itemsInBuffer == old(itemsInBuffer)
    {
      var k := 0;
      while k < |msgs|
        invariant 0 <= k <= |msgs|
        invariant |noBuf| == |old(noBuf)| + k && noBuf[..|old(noBuf)|] == old(noBuf)
        invariant forall i :: 0 <= i < k ==> noBuf[|old(noBuf)| + i] == decode(msgs[i]).0
        invariant sys == old(sys) && written == old(written) && delivered == old(delivered)
        invariant itemsInBuffer == old(itemsInBuffer)
      {
        var dec := decode(msgs[k]);
        noBuf := noBuf + [dec.0];
        k := k + 1;
      }
      sys := sys + [RawWriterClosed];
    }
  }

  // How many messages writerNoBuf takes: up to and including the first
  // failed write, or all of them.
  function Taken(errs: seq<Option<string>>): (t: nat)
    ensures t <= |errs|
    ensures forall j :: 0 <= j < t - 1 ==> errs[j].None?
    ensures t == |errs| || (t >= 1 && errs[t - 1].Some?)
  {
    if errs == [] then 0
    else if errs[0].Some? then 1
    else 1 + Taken(errs[1..])
  }

  lemma {:induction false} TakenAt(errs: seq<Option<string>>, k: nat)
    requires k < |errs| && errs[k].Some? && forall j :: 0 <= j < k ==> errs[j].None?
    ensures Taken(errs) == k + 1
    decreases k
  {
    if k > 0 {
      TakenAt(errs[1..], k - 1);
    }
  }

  lemma {:induction false} TakenAll(errs: seq<Option<string>>)
    requires forall j :: 0 <= j < |errs| ==> errs[j].None?
    ensures Taken(errs) == |errs|
    decreases |errs|
  {
    if errs != [] {
      TakenAll(errs[1..]);
    }
  }
}
