// bufferflow_grbl.go: the buffer flow for GRBL controllers. Commands are
// counted into a CommandQueue until 127 bytes are outstanding; every "ok"
// or "error" line from the controller retires the oldest one, a "Grbl"
// banner (the controller restarted) wipes everything, and repeated "<"
// status reports are not echoed twice.
//
// The flow's semaphore is modelled by `released`, the release types
// SetPaused(false, n) has signalled and nobody has received yet; the type a
// blocked BlockUntilReady eventually receives is a parameter.
module Grbl {
  import opened Wrappers
  import opened GoStrings
  import opened CommandQueue
  import opened FlowText
  import opened SerialPort

  const BufferMax := 127

  // What a flow's handlers need to know about their surroundings: the
  // flow's Port, the parent port's name, and whether the parent port's
  // sendBuffered channel has been closed.
  datatype Ctx = Ctx(port: string, parentName: string, closed: bool)

  // The flow's observable state; `items` is the parent port's
  // itemsInBuffer counter.
  datatype Flow = Flow(
    paused: bool,
    released: seq<int>,
    queue: seq<Cmd>,
    latest: string,
    lastStatus: string,
    version: string,
    out: seq<FlowMsg>,
    items: int)

  // SetPaused(false, n).
  function Release(f: Flow, n: int): Flow
  {
    f.(paused := false, released := f.released + [n])
  }

  // A DataPerLine broadcast of `line` with its newline put back.
  function Echo(c: Ctx, f: Flow, line: string): Flow
  {
    f.(out := f.out + [PerLine(c.port, line + "\n")])
  }

  // LocalBufferWipe: the drain of the parent's sendBuffered channel, then
  // ReleaseLock, then the WipedQueue notice. The channel is taken to be
  // empty, since nothing in the code modelled here sends on it; a closed
  // channel yields one more receive.
  function Wipe(c: Ctx, f: Flow): (g: Flow)
    ensures g.queue == [] && !g.paused && g.released == f.released + [2]
    ensures g.items == (if c.closed then f.items - 1 else f.items)
    ensures g.out == f.out + [Wiped(g.items, c.parentName)]
    ensures g.latest == f.latest && g.lastStatus == f.lastStatus && g.version == f.version
  {
    var items := if c.closed then f.items - 1 else f.items;
    Release(f.(queue := [], items := items, out := f.out + [Wiped(items, c.parentName)]), 2)
  }

  predicate IsAck(line: string)
  {
    HasPrefix(line, "ok") || HasPrefix(line, "error")
  }

  // An "ok" or "error" line: the oldest command, if any, is retired and
  // reported, and the flow resumes once fewer than BufferMax bytes are
  // outstanding.
  function Ack(c: Ctx, f: Flow, line: string): Flow
  {
    Resume(Retire(c, f, line))
  }

  function Retire(c: Ctx, f: Flow, line: string): Flow
  {
    if f.queue != [] then
      var kind := if HasPrefix(line, "ok") then "Complete" else "Error";
      f.(queue := f.queue[1..],
         out := f.out + [CmdComplete(kind, f.queue[0].id, c.port, TotalLen(f.queue[1..]), f.queue[0].data)])
    else f
  }

  function Resume(f: Flow): Flow
  {
    if TotalLen(f.queue) < BufferMax && f.paused then Release(f, 1) else f
  }

  // A "Grbl" banner: the controller restarted.
  function Banner(c: Ctx, f: Flow, line: string): Flow
  {
    var f1 := Wipe(c, f);
    var f2 := if f1.paused then Release(f1, 2) else f1;
    f2.(version := line)
  }

  // One complete line from the controller (the body of OnIncomingData's
  // loop).
  function HandleLine(c: Ctx, f: Flow, line: string): (g: Flow)
    ensures g.latest == f.latest && f.out <= g.out && f.released <= g.released
  {
    if IsAck(line) then Echo(c, Ack(c, f, line), line)
    else if HasPrefix(line, "Grbl") then Echo(c, Banner(c, f, line), line)
    else if HasPrefix(line, "<") then
      if line == f.lastStatus then f else Echo(c, f.(lastStatus := line), line)
    else Echo(c, f, line)
  }

  // The lines handled in order.
  function Feed(c: Ctx, f: Flow, lines: seq<string>): (g: Flow)
    ensures g.latest == f.latest && f.out <= g.out && f.released <= g.released
  {
    if lines == [] then f else HandleLine(c, Feed(c, f, lines[..|lines| - 1]), lines[|lines| - 1])
  }

  lemma FeedSnoc(c: Ctx, f: Flow, lines: seq<string>, i: nat)
    requires i < |lines|
    ensures Feed(c, f, lines[..i + 1]) == HandleLine(c, Feed(c, f, lines[..i]), lines[i])
  {
    assert lines[..i + 1][..i] == lines[..i];
  }

  // OnIncomingData: the data is added to what was held back, every
  // complete line is handled, and the incomplete rest is held back.
  function Incoming(c: Ctx, f: Flow, data: string): Flow
  {
    var all := f.latest + data;
    var ls := Lines(all, 2);
    if |ls| <= 1 then f.(latest := all)
    else Feed(c, f.(latest := all), ls[..|ls| - 1]).(latest := ls[|ls| - 1])
  }

  // The commands reported back in DataCmdComplete messages, in order.
  function Reported(ms: seq<FlowMsg>): seq<Cmd>
  {
    if ms == [] then []
    else
      var m := ms[|ms| - 1];
      Reported(ms[..|ms| - 1]) + (if m.CmdComplete? then [Cmd(m.data, m.id)] else [])
  }

  lemma ReportedSnoc(ms: seq<FlowMsg>, m: FlowMsg)
    ensures Reported(ms + [m]) == Reported(ms) + (if m.CmdComplete? then [Cmd(m.data, m.id)] else [])
  {
    assert (ms + [m])[..|ms|] == ms;
  }

  predicate IsSuffix<T(==)>(a: seq<T>, b: seq<T>)
  {
    |a| <= |b| && a == b[|b| - |a|..]
  }

  // Outside a restart banner, a line retires at most the oldest command,
  // and a command leaves the queue only by being reported: what has been
  // reported followed by what is still queued never changes.
  lemma AckConserves(c: Ctx, f: Flow, line: string)
    ensures var g := Ack(c, f, line);
      Reported(g.out) + g.queue == Reported(f.out) + f.queue
  {
    if f.queue != [] {
      var kind := if HasPrefix(line, "ok") then "Complete" else "Error";
      var m := CmdComplete(kind, f.queue[0].id, c.port, TotalLen(f.queue[1..]), f.queue[0].data);
      ReportedSnoc(f.out, m);
      assert f.queue == [f.queue[0]] + f.queue[1..];
    }
  }

  lemma EchoConserves(c: Ctx, f: Flow, line: string)
    ensures var g := Echo(c, f, line);
      Reported(g.out) == Reported(f.out) && g.queue == f.queue
  {
    ReportedSnoc(f.out, PerLine(c.port, line + "\n"));
  }

  lemma HandleLineConserves(c: Ctx, f: Flow, line: string)
    requires !HasPrefix(line, "Grbl")
    ensures var g := HandleLine(c, f, line);
      Reported(g.out) + g.queue == Reported(f.out) + f.queue
  {
    if IsAck(line) {
      AckConserves(c, f, line);
      EchoConserves(c, Ack(c, f, line), line);
    } else if !HasPrefix(line, "<") {
      EchoConserves(c, f, line);
    } else if line != f.lastStatus {
      EchoConserves(c, f.(lastStatus := line), line);
    }
  }

  lemma {:induction false} FeedConserves(c: Ctx, f: Flow, lines: seq<string>)
    requires forall k :: 0 <= k < |lines| ==> !HasPrefix(lines[k], "Grbl")
    ensures var g := Feed(c, f, lines);
      Reported(g.out) + g.queue == Reported(f.out) + f.queue
    decreases |lines|
  {
    if lines != [] {
      var init := lines[..|lines| - 1];
      FeedConserves(c, f, init);
      HandleLineConserves(c, Feed(c, f, init), lines[|lines| - 1]);
    }
  }

  // The queue only ever loses its oldest commands (or all of them).
  lemma {:induction false} FeedQueueSuffix(c: Ctx, f: Flow, lines: seq<string>)
    ensures IsSuffix(Feed(c, f, lines).queue, f.queue)
    decreases |lines|
  {
    if lines != [] {
      var init := lines[..|lines| - 1];
      FeedQueueSuffix(c, f, init);
      var h := Feed(c, f, init);
      var q := h.queue;
      var g := HandleLine(c, h, lines[|lines| - 1]);
      if g.queue != q && g.queue != [] {
        assert g.queue == q[1..];
      }
    }
  }

  // After an acknowledgement the flow stays paused only while at least
  // BufferMax bytes are still outstanding.
  lemma AckUnpauses(c: Ctx, f: Flow, line: string)
    requires IsAck(line)
    ensures var g := HandleLine(c, f, line);
      (g.paused ==> TotalLen(g.queue) >= BufferMax) &&
      (f.paused && TotalLen(g.queue) < BufferMax ==> g.released == f.released + [1])
  {
  }

  // Prefixes with different first characters exclude each other.
  lemma PrefixesExclusive(line: string, a: string, b: string)
    requires a != [] && b != [] && a[0] != b[0] && HasPrefix(line, a)
    ensures !HasPrefix(line, b)
  {
    assert line[0] == a[0];
  }

  // A restart banner empties the queue, unpauses with release type 2 once
  // (the second SetPaused(false, 2) in the handler can never run, since
  // the wipe has just unpaused), records the banner as the version and
  // echoes it.
  lemma BannerWipes(c: Ctx, f: Flow, line: string)
    requires HasPrefix(line, "Grbl")
    ensures var g := HandleLine(c, f, line);
      var items := if c.closed then f.items - 1 else f.items;
      g.queue == [] && !g.paused && g.released == f.released + [2] && g.version == line &&
      g.items == items && g.out == f.out + [Wiped(items, c.parentName), PerLine(c.port, line + "\n")]
  {
    PrefixesExclusive(line, "Grbl", "ok");
    PrefixesExclusive(line, "Grbl", "error");
  }

  // A status report is echoed exactly when it differs from the previous
  // one, and it becomes the last status either way.
  lemma StatusDeduplicated(c: Ctx, f: Flow, line: string)
    requires HasPrefix(line, "<")
    ensures var g := HandleLine(c, f, line);
      g.lastStatus == line && (g.out == f.out <==> line == f.lastStatus) &&
      (line != f.lastStatus ==> g.out == f.out + [PerLine(c.port, line + "\n")])
  {
    PrefixesExclusive(line, "<", "ok");
    PrefixesExclusive(line, "<", "error");
    PrefixesExclusive(line, "<", "Grbl");
    var g := HandleLine(c, f, line);
    if line != f.lastStatus {
      assert |g.out| == |f.out| + 1;
    }
  }

  // The text held back never holds a newline: a complete line is always
  // handled in the call that completes it.
  lemma IncomingHoldsNoLine(c: Ctx, f: Flow, data: string)
    requires '\n' !in f.latest
    ensures '\n' !in Incoming(c, f, data).latest
  {
    var all := f.latest + data;
    LinesNewlineFree(all, 2);
  }

  // Data without a newline is only held back.
  lemma IncomingPartial(c: Ctx, f: Flow, data: string)
    requires '\n' !in f.latest && '\n' !in data
    ensures Incoming(c, f, data) == f.(latest := f.latest + data)
  {
    var all := f.latest + data;
    LinesNewlineFree(all, 2);
  }

  // One command line after the comments and all spaces are removed.
  function Clean(item: string): (r: string)
    ensures ' ' !in r && ';' !in r
    ensures '\n' !in item ==> '\n' !in r
  {
    RemoveChar(StripComments(item), ' ')
  }

  // The body of BreakApartCommands' loop over the lines of a command.
  function BreakItem(c: Ctx, f: Flow, cmds: seq<string>, line: string): (r: (Flow, seq<string>))
    ensures Untouched(f, r.0) && cmds <= r.1
  {
    var item := Clean(line);
    if item == "*init*" then (f.(out := f.out + [PerLine(c.port, f.version + "\n")]), cmds)
    else if item == "*status*" then (f.(out := f.out + [PerLine(c.port, f.lastStatus + "\n")]), cmds)
    else if item == "?" then (f, cmds + [item])
    else if item == "%" then (Wipe(c, f), cmds)
    else if item != "" then (f, cmds + [item + "\n"])
    else (f, cmds)
  }

  function BreakItems(c: Ctx, f: Flow, lines: seq<string>): (r: (Flow, seq<string>))
    ensures Untouched(f, r.0)
  {
    if lines == [] then (f, [])
    else
      var prev := BreakItems(c, f, lines[..|lines| - 1]);
      BreakItem(c, prev.0, prev.1, lines[|lines| - 1])
  }

  lemma BreakSnoc(c: Ctx, f: Flow, lines: seq<string>, i: nat)
    requires i < |lines|
    ensures var prev := BreakItems(c, f, lines[..i]);
      BreakItems(c, f, lines[..i + 1]) == BreakItem(c, prev.0, prev.1, lines[i])
  {
    assert lines[..i + 1][..i] == lines[..i];
  }

  // What breaking a command apart leaves alone: the text held back, the
  // last status and the version; and it only adds to the broadcasts.
  predicate Untouched(f: Flow, g: Flow)
  {
    g.latest == f.latest && g.lastStatus == f.lastStatus && g.version == f.version && f.out <= g.out
  }

  // BreakApartCommands: the command split at newlines, each line cleaned.
  function BreakApart(c: Ctx, f: Flow, cmd: string): (r: (Flow, seq<string>))
    ensures Untouched(f, r.0)
  {
    BreakItems(c, f, Split(cmd, "\n"))
  }

  // Every command passed on is "?" or a cleaned, non-empty, ordinary line
  // with a newline put back.
  predicate WellFormed(s: string)
  {
    s == "?" ||
    (|s| >= 2 && s[|s| - 1] == '\n' &&
     var w := s[..|s| - 1];
     ' ' !in w && ';' !in w && '\n' !in w &&
     w != "*init*" && w != "*status*" && w != "%" && w != "?")
  }

  lemma {:induction false} BreakItemsWellFormed(c: Ctx, f: Flow, lines: seq<string>)
    requires forall k :: 0 <= k < |lines| ==> '\n' !in lines[k]
    ensures forall k :: 0 <= k < |BreakItems(c, f, lines).1| ==> WellFormed(BreakItems(c, f, lines).1[k])
    decreases |lines|
  {
    if lines != [] {
      var init := lines[..|lines| - 1];
      BreakItemsWellFormed(c, f, init);
      var prev := BreakItems(c, f, init);
      var line := lines[|lines| - 1];
      var item := Clean(line);
      var r := BreakItems(c, f, lines).1;
      if item != "*init*" && item != "*status*" && item != "?" && item != "%" && item != "" {
        assert r == prev.1 + [item + "\n"];
        assert (item + "\n")[..|item|] == item;
      }
    }
  }

  lemma BreakApartWellFormed(c: Ctx, f: Flow, cmd: string)
    ensures forall k :: 0 <= k < |BreakApart(c, f, cmd).1| ==> WellFormed(BreakApart(c, f, cmd).1[k])
  {
    var lines := Split(cmd, "\n");
    SplitPiecesFree(cmd, "\n");
    forall k | 0 <= k < |lines|
      ensures '\n' !in lines[k]
    {
      NotContainsChar(lines[k], '\n');
    }
    BreakItemsWellFormed(c, f, lines);
  }

  // A single ordinary line without comments or spaces is passed on as it
  // is, with its newline, and the flow is left alone.
  lemma BreakApartPlainLine(c: Ctx, f: Flow, cmd: string)
    requires cmd != "" && cmd != "*init*" && cmd != "*status*" && cmd != "?" && cmd != "%"
    requires '\n' !in cmd && '(' !in cmd && ';' !in cmd && ' ' !in cmd
    ensures BreakApart(c, f, cmd) == (f, [cmd + "\n"])
  {
    SplitFree(cmd, '\n');
    StripCommentsPlain(cmd);
    RemoveCharAbsent(cmd, ' ');
    assert Clean(cmd) == cmd;
    assert Split(cmd, "\n") == [cmd];
    assert [cmd][..0] == [];
    assert BreakItems(c, f, [cmd]) == BreakItem(c, f, [], cmd);
    var e: seq<string> := [];
    assert e + [cmd + "\n"] == [cmd + "\n"];
    assert BreakItem(c, f, e, cmd) == (f, [cmd + "\n"]);
  }

  // The SeeIfSpecificCommands* predicates: a regular-expression match on
  // the raw command.
  predicate ShouldSkipBuffer(cmd: string)
  {
    '!' in cmd || '~' in cmd || '?' in cmd || '\U{18}' in cmd
  }

  predicate ShouldPauseBuffer(cmd: string)
  {
    '!' in cmd
  }

  predicate ShouldUnpauseBuffer(cmd: string)
  {
    '~' in cmd
  }

  predicate ShouldWipeBuffer(cmd: string)
  {
    '\U{18}' in cmd
  }

  // SeeIfSpecificCommandsReturnNoResponse: its test is commented out.
  predicate ReturnsNoResponse(cmd: string)
  {
    false
  }

  // Pause, resume and soft reset all bypass the buffer, and each of them
  // is told apart by its own character.
  lemma SpecialCommandsSkip(cmd: string)
    ensures ShouldPauseBuffer(cmd) || ShouldUnpauseBuffer(cmd) || ShouldWipeBuffer(cmd) ==> ShouldSkipBuffer(cmd)
    ensures ShouldSkipBuffer(cmd) <==> ShouldPauseBuffer(cmd) || ShouldUnpauseBuffer(cmd) || ShouldWipeBuffer(cmd) || '?' in cmd
    ensures !ReturnsNoResponse(cmd)
  {
  }

  class GrblFlow {
    const port: string
    const parent: SerPort
    const q: Queue
    var paused: bool
    var released: seq<int>
    var latestData: string
    var lastStatus: string
    var version: string
    var out: seq<FlowMsg>

    function Context(): Ctx
      reads parent`sendChannelsClosed
    {
      Ctx(port, parent.name, parent.sendChannelsClosed)
    }

    ghost function State(): Flow
      reads this, q`items, parent`itemsInBuffer
    {
      Flow(paused, released, q.Items(), latestData, lastStatus, version, out, parent.itemsInBuffer)
    }

    ghost predicate Valid()
      reads q, q.Repr
    {
      q.Valid() && this !in q.Repr && parent !in q.Repr
    }

    // Init (the status query loop it starts is not modelled).
    constructor (port: string, parent: SerPort)
      ensures Valid() && fresh(q.Repr)
      ensures this.port == port && this.parent == parent
      ensures State() == Flow(false, [1], [], "", "", "", [], parent.itemsInBuffer)
    {
      this.port := port;
      this.parent := parent;
      q := new Queue();
      paused := false;
      released := [1];
      latestData, lastStatus, version := "", "", "";
      out := [];
    }

    method SetPaused(isPaused: bool, semRelease: int)
      modifies this
      ensures paused == isPaused
      ensures released == if isPaused then old(released) else old(released) + [semRelease]
      ensures latestData == old(latestData) && lastStatus == old(lastStatus)
      ensures version == old(version) && out == old(out)
    {
      paused := isPaused;
      if !isPaused {
        released := released + [semRelease];
      }
    }

    method Pause()
      modifies this
      ensures State() == old(State()).(paused := true)
    {
      SetPaused(true, 0);
    }

    method Unpause()
      modifies this
      ensures State() == Release(old(State()), 1)
    {
      SetPaused(false, 1);
    }

    // BlockUntilReady: the command is always queued; the flow pauses once
    // BufferMax bytes are outstanding, and a paused flow first drains the
    // pending release signals, then waits for the next one, `unblock`.
    method BlockUntilReady(cmd: string, id: string, unblock: int) returns (proceed: bool, queued: bool)
      requires Valid()
      modifies this, q, q.Repr
      ensures Valid() && fresh(q.Repr - old(q.Repr))
      ensures q.Items() == old(q.Items()) + [Cmd(cmd, id)]
      ensures paused == (old(paused) || TotalLen(q.Items()) >= BufferMax)
      ensures released == if paused then [] else old(released)
      ensures (proceed, queued) == if paused && unblock == 2 then (false, false) else (true, true)
      ensures latestData == old(latestData) && lastStatus == old(lastStatus)
      ensures version == old(version) && out == old(out)
    {
      q.Push(cmd, id);
      var n := q.LenOfCmds();
      if n >= BufferMax {
        SetPaused(true, 0);
      }
      if paused {
        released := [];
        if unblock == 2 {
          return false, false;
        }
      }
      return true, true;
    }

    // ReleaseLock: the queue is emptied and a type-2 release signalled.
    method ReleaseLock()
      requires Valid()
      modifies this, q
      ensures Valid() && q.Repr == old(q.Repr)
      ensures State() == Release(old(State()).(queue := []), 2)
    {
      q.Delete();
      SetPaused(false, 2);
    }

    method LocalBufferWipe()
      requires Valid()
      modifies this, q, parent
      ensures Valid() && q.Repr == old(q.Repr)
      ensures parent.sendChannelsClosed == old(parent.sendChannelsClosed)
      ensures State() == Wipe(old(Context()), old(State()))
    {
      if parent.sendChannelsClosed {
        parent.itemsInBuffer := parent.itemsInBuffer - 1;
      }
      ReleaseLock();
      out := out + [Wiped(parent.itemsInBuffer, parent.name)];
    }

    method Broadcast(line: string)
      modifies this
      ensures State() == Echo(Context(), old(State()), line)
    {
      out := out + [PerLine(port, line + "\n")];
    }

    method RetireOne(line: string)
      requires Valid()
      modifies this, q, q.Repr
      ensures Valid() && fresh(q.Repr - old(q.Repr))
      ensures State() == Retire(Context(), old(State()), line)
    {
      var size := q.Len();
      if size > 0 {
        var doneCmd, id := q.Poll();
        var left := q.LenOfCmds();
        var kind := if HasPrefix(line, "ok") then "Complete" else "Error";
        out := out + [CmdComplete(kind, id, port, left, doneCmd)];
      }
    }

    method ResumeIfRoom()
      requires Valid()
      modifies this
      ensures Valid()
      ensures State() == Resume(old(State()))
    {
      var left := q.LenOfCmds();
      if left < BufferMax && paused {
        SetPaused(false, 1);
      }
    }

    method BannerOne(line: string)
      requires Valid()
      modifies this, q, parent
      ensures Valid() && q.Repr == old(q.Repr)
      ensures parent.sendChannelsClosed == old(parent.sendChannelsClosed)
      ensures State() == Banner(old(Context()), old(State()), line)
    {
      // The handler's following SetPaused(false, 2) when paused cannot
      // fire, the wipe having just unpaused (BannerWipes), and is omitted.
      LocalBufferWipe();
      version := line;
    }

    // One pass of OnIncomingData's loop.
    method HandleOne(line: string)
      requires Valid()
      modifies this, q, q.Repr, parent
      ensures Valid() && fresh(q.Repr - old(q.Repr))
      ensures parent.sendChannelsClosed == old(parent.sendChannelsClosed)
      ensures State() == HandleLine(old(Context()), old(State()), line)
    {
      if HasPrefix(line, "ok") || HasPrefix(line, "error") {
        RetireOne(line);
        ResumeIfRoom();
      } else if HasPrefix(line, "Grbl") {
        BannerOne(line);
      } else if HasPrefix(line, "<") {
        if line == lastStatus {
          return;
        }
        lastStatus := line;
      }
      Broadcast(line);
    }

    // HandleOne on the next line of a batch.
    method FeedOne(ghost c: Ctx, ghost f0: Flow, body: seq<string>, i: nat)
      requires Valid() && i < |body| && Context() == c
      requires State() == Feed(c, f0, body[..i])
      modifies this, q, q.Repr, parent
      ensures Valid() && fresh(q.Repr - old(q.Repr)) && Context() == c
      ensures State() == Feed(c, f0, body[..i + 1])
    {
      FeedSnoc(c, f0, body, i);
      HandleOne(body[i]);
    }

    // OnIncomingData's loop over the complete lines.
    method FeedLines(body: seq<string>)
      requires Valid()
      modifies this, q, q.Repr, parent
      ensures Valid() && fresh(q.Repr - old(q.Repr))
      ensures parent.sendChannelsClosed == old(parent.sendChannelsClosed)
      ensures State() == Feed(old(Context()), old(State()), body)
    {
      ghost var c := Context();
      ghost var f0 := State();
      var i := 0;
      while i < |body|
        invariant 0 <= i <= |body|
        invariant Valid() && fresh(q.Repr - old(q.Repr)) && Context() == c
        invariant State() == Feed(c, f0, body[..i])
      {
        FeedOne(c, f0, body, i);
        i := i + 1;
      }
      assert body[..i] == body;
    }

    method OnIncomingData(data: string)
      requires Valid()
      modifies this, q, q.Repr, parent
      ensures Valid() && fresh(q.Repr - old(q.Repr))
      ensures parent.sendChannelsClosed == old(parent.sendChannelsClosed)
      ensures State() == Incoming(old(Context()), old(State()), data)
    {
      ghost var c := Context();
      ghost var f0 := State();
      var lines := Lines(latestData + data, 2);
      SetLatest(latestData + data);
      if |lines| <= 1 {
        return;
      }
      FeedLines(lines[..|lines| - 1]);
      SetLatest(lines[|lines| - 1]);
    }

    // The unfinished line kept for the next chunk.
    method SetLatest(s: string)
      modifies this
      ensures State() == old(State()).(latest := s) && Context() == old(Context())
    {
      latestData := s;
    }

    // One pass of BreakApartCommands' loop.
    method BreakOne(ghost c: Ctx, ghost f0: Flow, lines: seq<string>, i: nat, cmds0: seq<string>)
      returns (cmds: seq<string>)
      requires Valid() && i < |lines| && Context() == c
      requires (State(), cmds0) == BreakItems(c, f0, lines[..i])
      modifies this, q, parent
      ensures Valid() && q.Repr == old(q.Repr) && Context() == c
      ensures (State(), cmds) == BreakItems(c, f0, lines[..i + 1])
    {
      BreakSnoc(c, f0, lines, i);
      var item := Clean(lines[i]);
      cmds := cmds0;
      if item == "*init*" {
        out := out + [PerLine(port, version + "\n")];
      } else if item == "*status*" {
        out := out + [PerLine(port, lastStatus + "\n")];
      } else if item == "?" {
        cmds := cmds + [item];
      } else if item == "%" {
        LocalBufferWipe();
      } else if item != "" {
        cmds := cmds + [item + "\n"];
      }
    }

    method BreakApartCommands(cmd: string) returns (cmds: seq<string>)
      requires Valid()
      modifies this, q, parent
      ensures Valid() && q.Repr == old(q.Repr)
      ensures parent.sendChannelsClosed == old(parent.sendChannelsClosed)
      ensures (State(), cmds) == BreakApart(old(Context()), old(State()), cmd)
    {
      ghost var c := Context();
      ghost var f0 := State();
      var lines := Split(cmd, "\n");
      cmds := [];
      var i := 0;
      while i < |lines|
        invariant 0 <= i <= |lines|
        invariant Valid() && q.Repr == old(q.Repr) && Context() == c
        invariant (State(), cmds) == BreakItems(c, f0, lines[..i])
      {
        cmds := BreakOne(c, f0, lines, i, cmds);
        i := i + 1;
      }
      assert lines[..i] == lines;
    }
  }
}
