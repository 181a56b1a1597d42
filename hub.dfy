// hub.go: the text commands the agent receives over its websocket, and the
// hub state they act on: the registry of open ports, the list of
// discovered ports, the connections that receive every broadcast, and the
// messages broadcast to them. checkCmd only decides what to start (each
// branch starts a goroutine or calls out), so it is a function from the
// command line to an Action; the handlers it starts are methods.
module Hub {
  import opened Wrappers
  import opened GoStrings
  import opened Strconv
  import opened SerialPort
  import opened SerialHub
  import opened PortList

  // The parameters of a downloadtool command.
  datatype Download = Download(tool: string, toolVersion: string, pack: string, behaviour: string)

  // What checkCmd starts.
  datatype Action =
    | Nothing                     // hibernating
    | OpenPort(port: string, baud: int, buftype: string)
    | Error(text: string)         // spErr
    | ClosePort(port: string)
    | KillUpload
    | Write(arg: string)          // spWrite, on the whole line
    | ListPorts
    | DownloadTool(req: Result<Download>)
    | LogAction(sl: string)
    | Restart
    | Exit
    | MemStats
    | GarbageCollect
    | Hostname
    | Version

  const NewlineSet: set<char> := {'\n'}

  // The command in lower case with surrounding newlines trimmed: the text
  // the verbs are matched against.
  function Lowered(s: string): string
  {
    ToLower(Trim(s, NewlineSet))
  }

  // The open command: port, baud and optional buffer algorithm, split
  // from the original line on single spaces.
  function OpenCmd(s: string): (a: Action)
    ensures a.OpenPort? || a.Error?
    ensures a.OpenPort? <==> |Split(s, " ")| >= 3 && |Split(s, " ")[1]| >= 1 &&
                             Atoi(RemoveChar(Split(s, " ")[2], '\n')).Some?
    ensures a.OpenPort? ==> a.port == Split(s, " ")[1] && MinInt64 <= a.baud <= MaxInt64 && '\n' !in a.buftype
  {
    var args := Split(s, " ");
    if |args| < 3 then Error("You did not specify a port and baud rate in your open cmd")
    else if |args[1]| < 1 then Error("You did not specify a serial port")
    else match Atoi(RemoveChar(args[2], '\n'))
      case None => Error("Problem converting baud rate " + args[2])
      case Some(baud) =>
        OpenPort(args[1], baud, if |args| > 3 then RemoveChar(args[3], '\n') else "default")
  }

  // The downloadtool arguments, with their defaults.
  function ParseDownload(s: string): (r: Result<Download>)
    ensures r.Err? <==> |Split(s, " ")| <= 1
    ensures r.Ok? ==> r.value.tool == Split(s, " ")[1] && !HasPrefix(r.value.toolVersion, "http")
  {
    var args := Split(s, " ");
    if |args| <= 1 then Err("Not enough arguments")
    else
      Ok(Download(
        args[1],
        if |args| > 2 && !HasPrefix(args[2], "http") then args[2] else "latest",
        if |args| > 3 then args[3] else "arduino",
        if |args| > 4 then args[4] else "keep"))
  }

  // checkCmd: the first verb, in this order, that the lowered line starts
  // with decides; arguments come from the original line.
  function CheckCmd(s: string, hibernate: bool): (a: Action)
    ensures hibernate <==> a.Nothing?
    ensures a.OpenPort? ==> HasPrefix(Lowered(s), "open") && a == OpenCmd(s)
    ensures a.ClosePort? ==> HasPrefix(Lowered(s), "close") && |Split(s, " ")| > 1 && a.port == Split(s, " ")[1]
    ensures a.Write? ==> HasPrefix(Lowered(s), "send") && a.arg == s
    ensures a.DownloadTool? ==> HasPrefix(Lowered(s), "downloadtool") && a.req == ParseDownload(s)
  {
    var sl := Lowered(s);
    if hibernate then Nothing
    else if HasPrefix(sl, "open") then OpenCmd(s)
    else if HasPrefix(sl, "close") then
      var args := Split(s, " ");
      if |args| > 1 then ClosePort(args[1]) else Error("You did not specify a port to close")
    else if HasPrefix(sl, "killupload") then KillUpload
    else if HasPrefix(sl, "send") then Write(s)
    else if HasPrefix(sl, "list") then ListPorts
    else if HasPrefix(sl, "downloadtool") then DownloadTool(ParseDownload(s))
    else if HasPrefix(sl, "log") then LogAction(sl)
    else if HasPrefix(sl, "restart") then Restart
    else if HasPrefix(sl, "exit") then Exit
    else if HasPrefix(sl, "memstats") then MemStats
    else if HasPrefix(sl, "gc") then GarbageCollect
    else if HasPrefix(sl, "hostname") then Hostname
    else if HasPrefix(sl, "version") then Version
    else Error("Could not understand command.")
  }

  // The verbs are tried in order; these three state which branch a line
  // whose lowered form starts with open, close or send takes.
  lemma DispatchOpen(s: string)
    requires HasPrefix(Lowered(s), "open")
    ensures CheckCmd(s, false) == OpenCmd(s)
  {
  }

  lemma DispatchClose(s: string)
    requires HasPrefix(Lowered(s), "close")
    ensures CheckCmd(s, false) ==
      if |Split(s, " ")| > 1 then ClosePort(Split(s, " ")[1]) else Error("You did not specify a port to close")
  {
    assert Lowered(s)[0] == 'c';
  }

  lemma DispatchSend(s: string)
    requires HasPrefix(Lowered(s), "send")
    ensures CheckCmd(s, false) == Write(s)
  {
    var sl := Lowered(s);
    assert sl[0] == 's';
    assert !HasPrefix(sl, "open") && !HasPrefix(sl, "close") && !HasPrefix(sl, "killupload");
  }

  // A line that starts with a word made of letters, and has a character
  // other than a newline after it, is lowered to a line that starts with
  // that word in lower case.
  lemma LoweredPrefix(verb: string, rest: string, k: nat)
    requires 0 < |verb| && k < |rest| && rest[k] != '\n'
    requires forall i :: 0 <= i < |verb| ==> 'a' <= LowerChar(verb[i]) <= 'z'
    ensures HasPrefix(Lowered(verb + rest), ToLower(verb))
  {
    var s := verb + rest;
    assert s[0] == verb[0];
    assert LowerChar(verb[0]) != '\n';
    assert TrimLeftSet(s, NewlineSet) == s;
    var r := TrimRightSet(s, NewlineSet);
    assert s[|verb| + k] == rest[k];
    assert s[|verb| + k] !in NewlineSet;
    assert |verb| + k < |r|;
    var lr := ToLower(r);
    var lv := ToLower(verb);
    forall i | 0 <= i < |verb|
      ensures lr[i] == lv[i]
    {
      assert r[i] == s[i] == verb[i];
    }
    assert lr[..|verb|] == lv;
    assert Lowered(s) == lr;
  }

  // A line made of a lower-case verb, a space and anything is lowered to
  // a line that starts with that verb.
  lemma VerbLowered(verb: string, tail: string)
    requires verb != [] && forall i :: 0 <= i < |verb| ==> 'a' <= verb[i] <= 'z'
    ensures HasPrefix(Lowered(verb + " " + tail), verb)
  {
    var rest := [' '] + tail;
    assert verb + " " + tail == verb + rest;
    assert ToLower(verb) == verb;
    LoweredPrefix(verb, rest, 0);
  }

  // An open command with a port, a decimal baud rate and a buffer type,
  // none of them holding spaces or newlines, opens that port at that rate
  // with that buffer type; the port keeps its case.
  lemma OpenRoundTrip(port: string, baud: int, buftype: string)
    requires port != [] && ' ' !in port && '\n' !in port
    requires ' ' !in buftype && '\n' !in buftype
    requires MinInt64 <= baud <= MaxInt64
    ensures CheckCmd("open " + port + " " + Itoa(baud) + " " + buftype, false) == OpenPort(port, baud, buftype)
  {
    var s := "open " + port + " " + Itoa(baud) + " " + buftype;
    var tail := port + " " + Itoa(baud) + " " + buftype;
    assert s == "open" + " " + tail;
    VerbLowered("open", tail);
    DispatchOpen(s);
    OpenFields(port, baud, buftype);
  }

  lemma OpenFields(port: string, baud: int, buftype: string)
    requires port != [] && ' ' !in port && '\n' !in port
    requires ' ' !in buftype && '\n' !in buftype
    requires MinInt64 <= baud <= MaxInt64
    ensures OpenCmd("open " + port + " " + Itoa(baud) + " " + buftype) == OpenPort(port, baud, buftype)
  {
    var b := Itoa(baud);
    ItoaNoSpace(baud);
    var s := "open " + port + " " + b + " " + buftype;
    assert s == "open" + [' '] + port + [' '] + b + [' '] + buftype;
    SplitWords4("open", port, b, buftype, ' ');
    RemoveCharAbsent(b, '\n');
    RemoveCharAbsent(buftype, '\n');
    AtoiItoa(baud);
  }

  // Without the buffer type the default buffer is used.
  lemma OpenDefaultBuffer(port: string, baud: int)
    requires port != [] && ' ' !in port && '\n' !in port
    requires MinInt64 <= baud <= MaxInt64
    ensures CheckCmd("open " + port + " " + Itoa(baud), false) == OpenPort(port, baud, "default")
  {
    var s := "open " + port + " " + Itoa(baud);
    var tail := port + " " + Itoa(baud);
    assert s == "open" + " " + tail;
    VerbLowered("open", tail);
    DispatchOpen(s);
    OpenFieldsDefault(port, baud);
  }

  lemma OpenFieldsDefault(port: string, baud: int)
    requires port != [] && ' ' !in port && '\n' !in port
    requires MinInt64 <= baud <= MaxInt64
    ensures OpenCmd("open " + port + " " + Itoa(baud)) == OpenPort(port, baud, "default")
  {
    var b := Itoa(baud);
    ItoaNoSpace(baud);
    var s := "open " + port + " " + b;
    assert s == "open" + [' '] + port + [' '] + b;
    SplitWords3("open", port, b, ' ');
    RemoveCharAbsent(b, '\n');
    AtoiItoa(baud);
  }

  // A close command names the port to close; the port keeps its case.
  lemma CloseRoundTrip(port: string)
    requires ' ' !in port
    ensures CheckCmd("close " + port, false) == ClosePort(port)
  {
    var s := "close " + port;
    assert s == "close" + [' '] + port;
    SplitWords2("close", port, ' ');
    VerbLowered("close", port);
    DispatchClose(s);
  }

  // The verbs are matched in lower case: a send line whose verb is written
  // in any case is routed to spWrite, which parses the original line.
  lemma SendRouted(verb: string, rest: string, k: nat)
    requires ToLower(verb) == "send"
    requires k < |rest| && rest[k] != '\n'
    ensures CheckCmd(verb + rest, false) == Write(verb + rest)
  {
    forall i | 0 <= i < |verb|
      ensures 'a' <= LowerChar(verb[i]) <= 'z'
    {
      assert LowerChar(verb[i]) == ToLower(verb)[i];
    }
    LoweredPrefix(verb, rest, k);
    DispatchSend(verb + rest);
  }

  lemma DispatchDownload(s: string)
    requires HasPrefix(Lowered(s), "downloadtool")
    ensures CheckCmd(s, false) == DownloadTool(ParseDownload(s))
  {
    var sl := Lowered(s);
    assert sl[0] == 'd';
    Mismatch(sl, "open", 0);
    Mismatch(sl, "close", 0);
    Mismatch(sl, "killupload", 0);
    Mismatch(sl, "send", 0);
    Mismatch(sl, "list", 0);
  }

  // A downloadtool command with all four fields asks for that tool,
  // version, package and behaviour, except that a version that starts
  // with "http" (the URL of the old interface) is ignored for "latest".
  lemma DownloadRoundTrip(tool: string, version: string, pack: string, behaviour: string)
    requires ' ' !in tool && ' ' !in version && ' ' !in pack && ' ' !in behaviour
    ensures var s := "downloadtool " + tool + " " + version + " " + pack + " " + behaviour;
      CheckCmd(s, false) ==
      DownloadTool(Ok(Download(tool, if HasPrefix(version, "http") then "latest" else version, pack, behaviour)))
  {
    DownloadLine(tool, version, pack, behaviour);
    DownloadFields(tool, version, pack, behaviour);
  }

  lemma DownloadLine(tool: string, version: string, pack: string, behaviour: string)
    ensures var s := "downloadtool " + tool + " " + version + " " + pack + " " + behaviour;
      CheckCmd(s, false) == DownloadTool(ParseDownload(s))
  {
    var tail := tool + " " + version + " " + pack + " " + behaviour;
    var s := "downloadtool " + tool + " " + version + " " + pack + " " + behaviour;
    assert s == "downloadtool" + " " + tail;
    VerbLowered("downloadtool", tail);
    DispatchDownload(s);
  }

  lemma DownloadFields(tool: string, version: string, pack: string, behaviour: string)
    requires ' ' !in tool && ' ' !in version && ' ' !in pack && ' ' !in behaviour
    ensures ParseDownload("downloadtool " + tool + " " + version + " " + pack + " " + behaviour)
         == Ok(Download(tool, if HasPrefix(version, "http") then "latest" else version, pack, behaviour))
  {
    DownloadWords(tool, version, pack, behaviour);
  }

  lemma DownloadWords(tool: string, version: string, pack: string, behaviour: string)
    requires ' ' !in tool && ' ' !in version && ' ' !in pack && ' ' !in behaviour
    ensures Split("downloadtool " + tool + " " + version + " " + pack + " " + behaviour, " ")
         == ["downloadtool", tool, version, pack, behaviour]
  {
    var t := tool + [' '] + version + [' '] + pack + [' '] + behaviour;
    assert "downloadtool " + tool + " " + version + " " + pack + " " + behaviour == "downloadtool" + [' '] + t;
    SplitAfterFree("downloadtool", ' ', t);
    SplitWords4(tool, version, pack, behaviour, ' ');
  }

  // A downloadtool command with a tool name only takes the defaults.
  lemma DownloadDefaults(tool: string)
    requires ' ' !in tool
    ensures CheckCmd("downloadtool " + tool, false) == DownloadTool(Ok(Download(tool, "latest", "arduino", "keep")))
  {
    var s := "downloadtool " + tool;
    assert s == "downloadtool" + " " + tool;
    VerbLowered("downloadtool", tool);
    DispatchDownload(s);
    assert s == "downloadtool" + [' '] + tool;
    SplitWords2("downloadtool", tool, ' ');
  }

  // The command list the agent advertises names "memorystats", but the
  // verb checkCmd understands is "memstats": the advertised form is
  // answered as an unknown command.
  lemma MemoryStatsNotUnderstood()
    ensures CheckCmd("memorystats", false) == Error("Could not understand command.")
  {
    LoweredLetters("memorystats");
    var sl := Lowered("memorystats");
    assert sl[0] == 'm' && sl[3] == 'o';
    Mismatch(sl, "open", 0);
    Mismatch(sl, "close", 0);
    Mismatch(sl, "killupload", 0);
    Mismatch(sl, "send", 0);
    Mismatch(sl, "list", 0);
    Mismatch(sl, "downloadtool", 0);
    Mismatch(sl, "log", 0);
    Mismatch(sl, "restart", 0);
    Mismatch(sl, "exit", 0);
    Mismatch(sl, "gc", 0);
    Mismatch(sl, "hostname", 0);
    Mismatch(sl, "version", 0);
    Mismatch(sl, "memstats", 3);
  }

  // Strings that differ at a position inside both do not start alike.
  lemma Mismatch(s: string, prefix: string, i: nat)
    requires i < |s| && i < |prefix| && s[i] != prefix[i]
    ensures !HasPrefix(s, prefix)
  {
  }

  lemma MemStatsUnderstood()
    ensures CheckCmd("memstats", false) == MemStats
  {
    LoweredLetters("memstats");
    var sl := Lowered("memstats");
    assert sl[0] == 'm';
    Mismatch(sl, "open", 0);
    Mismatch(sl, "close", 0);
    Mismatch(sl, "killupload", 0);
    Mismatch(sl, "send", 0);
    Mismatch(sl, "list", 0);
    Mismatch(sl, "downloadtool", 0);
    Mismatch(sl, "log", 0);
    Mismatch(sl, "restart", 0);
    Mismatch(sl, "exit", 0);
  }

  // The verbs checkCmd tries, in its order.
  const Verbs: seq<string> :=
    ["open", "close", "killupload", "send", "list", "downloadtool", "log",
     "restart", "exit", "memstats", "gc", "hostname", "version"]

  // A line is answered as an unknown command exactly when its lowered
  // form starts with none of the verbs: no branch for a verb reports
  // that error, and every other line falls through to it.
  lemma {:induction false} NotUnderstoodIff(s: string)
    ensures CheckCmd(s, false) == Error("Could not understand command.") <==>
            forall i :: 0 <= i < |Verbs| ==> !HasPrefix(Lowered(s), Verbs[i])
  {
    if i :| 0 <= i < |Verbs| && HasPrefix(Lowered(s), Verbs[i]) {
      VerbUnderstood(s, i);
    } else {
      FallsThrough(s);
    }
  }

  lemma FallsThrough(s: string)
    requires forall i :: 0 <= i < |Verbs| ==> !HasPrefix(Lowered(s), Verbs[i])
    ensures CheckCmd(s, false) == Error("Could not understand command.")
  {
    var sl := Lowered(s);
    assert !HasPrefix(sl, Verbs[0]) && !HasPrefix(sl, Verbs[1]) && !HasPrefix(sl, Verbs[2]);
    assert !HasPrefix(sl, Verbs[3]) && !HasPrefix(sl, Verbs[4]) && !HasPrefix(sl, Verbs[5]);
    assert !HasPrefix(sl, Verbs[6]) && !HasPrefix(sl, Verbs[7]) && !HasPrefix(sl, Verbs[8]);
    assert !HasPrefix(sl, Verbs[9]) && !HasPrefix(sl, Verbs[10]) && !HasPrefix(sl, Verbs[11]);
    assert !HasPrefix(sl, Verbs[12]);
  }

  // A line that starts with a verb never gets the unknown-command error:
  // open and close report their own errors, the other verbs none.
  lemma VerbUnderstood(s: string, i: nat)
    requires i < |Verbs| && HasPrefix(Lowered(s), Verbs[i])
    ensures CheckCmd(s, false) != Error("Could not understand command.")
  {
    var sl := Lowered(s);
    var unknown := "Could not understand command.";
    var a := CheckCmd(s, false);
    if i == 0 {
      DispatchOpen(s);
      var args := Split(s, " ");
      var m1 := "You did not specify a port and baud rate in your open cmd";
      var m2 := "You did not specify a serial port";
      var m3 := "Problem converting baud rate ";
      assert a.Error? ==> a.text == m1 || a.text == m2 || a.text == m3 + args[2];
      assert m1[0] == m2[0] == 'Y' && m3[0] == 'P' != unknown[0];
    } else if i == 1 {
      DispatchClose(s);
      var m := "You did not specify a port to close";
      assert m[0] != unknown[0];
    } else {
      OtherVerb(s, i);
    }
  }

  // The verbs after close all start with neither 'o' nor 'c', and none
  // of their branches reports an error.
  lemma OtherVerb(s: string, i: nat)
    requires 2 <= i < |Verbs| && HasPrefix(Lowered(s), Verbs[i])
    ensures !CheckCmd(s, false).Error?
  {
    var sl := Lowered(s);
    assert sl[0] == Verbs[i][0] != 'o';
    Mismatch(sl, "open", 0);
    Mismatch(sl, "close", 0);
    if i == 2 { assert HasPrefix(sl, "killupload"); }
    else if i == 3 { assert HasPrefix(sl, "send"); }
    else if i == 4 { assert HasPrefix(sl, "list"); }
    else if i == 5 { assert HasPrefix(sl, "downloadtool"); }
    else if i == 6 { assert HasPrefix(sl, "log"); }
    else if i == 7 { assert HasPrefix(sl, "restart"); }
    else if i == 8 { assert HasPrefix(sl, "exit"); }
    else if i == 9 { assert HasPrefix(sl, "memstats"); }
    else if i == 10 { assert HasPrefix(sl, "gc"); }
    else if i == 11 { assert HasPrefix(sl, "hostname"); }
    else { assert HasPrefix(sl, "version"); }
  }

  // A line of lower-case letters is its own lowered form.
  lemma LoweredLetters(s: string)
    requires forall i :: 0 <= i < |s| ==> 'a' <= s[i] <= 'z'
    ensures Lowered(s) == s
  {
    assert s == [] || s[0] !in NewlineSet;
    assert TrimLeftSet(s, NewlineSet) == s;
    assert s == [] || s[|s| - 1] !in NewlineSet;
    assert TrimRightSet(s, NewlineSet) == s;
    assert ToLower(s) == s;
  }

  // The three fields of a send command.
  datatype SendCmd = SendCmd(mode: string, port: string, data: string)

  // spWrite's parse: after one leading space is dropped, the line is split
  // into at most three fields, so the data keeps its spaces. Every line it
  // accepts is its three fields joined by spaces, and the first two hold no
  // space.
  function ParseSend(arg: string): (r: Result<SendCmd>)
    ensures r.Err? ==> r.msg == "Could not parse send command: " + TrimPrefix(arg, " ")
    ensures r.Ok? ==>
      ' ' !in r.value.mode && ' ' !in r.value.port &&
      TrimPrefix(arg, " ") == r.value.mode + " " + r.value.port + " " + r.value.data
  {
    var a := TrimPrefix(arg, " ");
    var args := SplitN(a, " ", 3);
    if |args| != 3 then Err("Could not parse send command: " + a)
    else
      SplitN3(a, ' ');
      TrimAbsent(args[1], {' '});
      Ok(SendCmd(args[0], Trim(args[1], {' '}), args[2]))
  }

  // A send line with a verb and a port name free of spaces parses back
  // into its three fields; the data keeps its spaces.
  lemma ParseSendRoundTrip(mode: string, port: string, data: string)
    requires mode != [] && ' ' !in mode && ' ' !in port
    ensures ParseSend(mode + " " + port + " " + data) == Ok(SendCmd(mode, port, data))
  {
    var line := mode + " " + port + " " + data;
    SendWords(mode, port, data);
    TrimAbsent(port, {' '});
  }

  lemma SendWords(mode: string, port: string, data: string)
    requires mode != [] && ' ' !in mode && ' ' !in port
    ensures var line := mode + " " + port + " " + data;
      TrimPrefix(line, " ") == line && SplitN(line, " ", 3) == [mode, port, data]
  {
    var line := mode + [' '] + (port + [' '] + data);
    assert mode + " " + port + " " + data == line;
    assert line[0] == mode[0];
    SplitNAfterFree(mode, ' ', port + [' '] + data, 3);
    SplitNAfterFree(port, ' ', data, 2);
    assert SplitN(data, [' '], 1) == [data];
  }

  predicate IsSendMode(mode: string)
  {
    mode == "send" || mode == "sendnobuf" || mode == "sendraw"
  }

  // spErr's envelope.
  function ErrorEnvelope(err: string): string
  {
    "{\"Error\" : \"" + err + "\"}"
  }

  function OpenFailText(err: string, name: string, baud: int): string
  {
    "{\"Cmd\":\"OpenFail\",\"Desc\":\"Error opening port. " + err + "\",\"Port\":\"" + name + "\",\"Baud\":" + Itoa(baud) + "}"
  }

  // The bufferflows spHandlerOpen can build.
  datatype FlowKind = Timed | TimedRaw | DefaultKind

  // The buffer type that selects each kind of bufferflow.
  function BufTypeOf(k: FlowKind): string
  {
    match k
    case Timed => "timed"
    case TimedRaw => "timedraw"
    case DefaultKind => "default"
  }

  function FlowFor(buftype: string): (r: Option<FlowKind>)
    ensures r.Some? <==> KnownBufType(buftype)
    ensures r.Some? ==> BufTypeOf(r.value) == buftype
  {
    if buftype == "timed" then Some(Timed)
    else if buftype == "timedraw" then Some(TimedRaw)
    else if buftype == "default" then Some(DefaultKind)
    else None
  }

  // Each kind of bufferflow is built for its own buffer type, and for no
  // other.
  lemma FlowForInverse(k: FlowKind, buftype: string)
    ensures FlowFor(BufTypeOf(k)) == Some(k)
    ensures FlowFor(buftype) == Some(k) <==> buftype == BufTypeOf(k)
  {
  }

  // What the hub broadcasts to its connections: a text message, or the
  // JSON listing of the port list at that moment.
  datatype SysOut = Text(text: string) | Listing(ports: seq<SpPortItem>)

  // Calls the hub makes on a port object (serport.Close and serport.Write).
  datatype PortRequest = CloseRequest(port: SerPort) | WriteRequest(port: SerPort, data: string, mode: string)

  // The outcome of spHandlerOpen.
  datatype OpenOutcome = OpenFailed | Panicked | Ran(port: SerPort)

  // A websocket connection: its buffered send channel and whether the hub
  // closed it.
  class Connection {
    var send: seq<string>
    const capacity: nat
    var closed: bool

    constructor (capacity: nat)
      ensures send == [] && this.capacity == capacity && !closed
    {
      send := [];
      this.capacity := capacity;
      closed := false;
    }
  }

  class HubState {
    var connections: set<Connection>
    var sys: seq<SysOut>
    var requests: seq<PortRequest>
    const serialHub: Registry
    const portList: SerialPortList

    constructor (portList: SerialPortList)
      ensures connections == {} && sys == [] && requests == []
      ensures fresh(serialHub) && serialHub.ports == {} && this.portList == portList
    {
      connections := {};
      sys := [];
      requests := [];
      serialHub := new Registry();
      this.portList := portList;
    }

    // unregisterConnection: an unknown connection is left alone; a known
    // one is removed and its send channel closed.
    method UnregisterConnection(c: Connection)
      modifies this, c
      ensures connections == old(connections) - {c}
      ensures c.closed == (old(c.closed) || c in old(connections))
      ensures c.send == old(c.send)
      ensures sys == old(sys) && requests == old(requests)
    {
      if c !in connections {
        return;
      }
      connections := connections - {c};
      c.closed := true;
    }

    // sendToRegisteredConnections: every connection whose channel has room
    // receives the data; every other one is unregistered instead of
    // blocking the hub.
    method SendToRegisteredConnections(data: string)
      modifies this, connections
      ensures connections == set c | c in old(connections) && |old(c.send)| < c.capacity
      ensures forall c :: c in old(connections) && |old(c.send)| < c.capacity ==>
        c.send == old(c.send) + [data] && c.closed == old(c.closed)
      ensures forall c :: c in old(connections) && |old(c.send)| >= c.capacity ==>
        c.send == old(c.send) && c.closed
      ensures sys == old(sys) && requests == old(requests)
    {
      ghost var before := connections;
      var rest := connections;
      while rest != {}
        invariant rest <= before
        invariant connections == rest + set c | c in before - rest && |old(c.send)| < c.capacity
        invariant forall c :: c in rest ==> c.send == old(c.send) && c.closed == old(c.closed)
        invariant forall c :: c in before - rest && |old(c.send)| < c.capacity ==>
          c.send == old(c.send) + [data] && c.closed == old(c.closed)
        invariant forall c :: c in before - rest && |old(c.send)| >= c.capacity ==>
          c.send == old(c.send) && c.closed
        invariant sys == old(sys) && requests == old(requests)
        decreases rest
      {
        var c :| c in rest;
        if |c.send| < c.capacity {
          c.send := c.send + [data];
        } else {
          UnregisterConnection(c);
        }
        rest := rest - {c};
      }
    }

    // spErr
    method SpErr(err: string)
      modifies this
      ensures sys == old(sys) + [Text(ErrorEnvelope(err))]
      ensures requests == old(requests) && connections == old(connections)
    {
      sys := sys + [Text(ErrorEnvelope(err))];
    }

    // spClose: a registered port is announced and asked to close; any
    // other name is reported as an error.
    method SpClose(portname: string)
      modifies this
      ensures Named(serialHub.ports, portname) != {} ==>
        sys == old(sys) + [Text("Closing serial port " + portname)] &&
        |requests| == |old(requests)| + 1 && requests[..|old(requests)|] == old(requests) &&
        requests[|old(requests)|].CloseRequest? && requests[|old(requests)|].port in Named(serialHub.ports, portname)
      ensures Named(serialHub.ports, portname) == {} ==>
        sys == old(sys) + [Text(ErrorEnvelope("We could not find the serial port " + portname + " that you were trying to close."))] &&
        requests == old(requests)
      ensures connections == old(connections)
    {
      var myport, ok := serialHub.FindPortByName(portname);
      if ok {
        sys := sys + [Text("Closing serial port " + portname)];
        requests := requests + [CloseRequest(myport)];
      } else {
        SpErr("We could not find the serial port " + portname + " that you were trying to close.");
      }
    }

    // spWrite: parse, then look the port up, then check the verb, exactly
    // as cased; only then is the data handed to the port.
    method SpWrite(arg: string)
      modifies this
      ensures ParseSend(arg).Err? ==>
        sys == old(sys) + [Text(ErrorEnvelope(ParseSend(arg).msg))] && requests == old(requests)
      ensures ParseSend(arg).Ok? && Named(serialHub.ports, ParseSend(arg).value.port) == {} ==>
        sys == old(sys) + [Text(ErrorEnvelope("We could not find the serial port " + ParseSend(arg).value.port + " that you were trying to write to."))] &&
        requests == old(requests)
      ensures ParseSend(arg).Ok? && Named(serialHub.ports, ParseSend(arg).value.port) != {} && !IsSendMode(ParseSend(arg).value.mode) ==>
        sys == old(sys) + [Text(ErrorEnvelope("Unsupported send command:" + ParseSend(arg).value.mode + ". Please specify a valid one"))] &&
        requests == old(requests)
      ensures ParseSend(arg).Ok? && Named(serialHub.ports, ParseSend(arg).value.port) != {} && IsSendMode(ParseSend(arg).value.mode) ==>
        sys == old(sys) && |requests| == |old(requests)| + 1 && requests[..|old(requests)|] == old(requests) &&
        requests[|old(requests)|] == WriteRequest(requests[|old(requests)|].port, ParseSend(arg).value.data, ParseSend(arg).value.mode) &&
        requests[|old(requests)|].port in Named(serialHub.ports, ParseSend(arg).value.port)
      ensures connections == old(connections)
    {
      var parsed := ParseSend(arg);
      if parsed.Err? {
        SpErr(parsed.msg);
        return;
      }
      var x := parsed.value;
      var port, ok := serialHub.FindPortByName(x.port);
      if !ok {
        SpErr("We could not find the serial port " + x.port + " that you were trying to write to.");
        return;
      }
      if !IsSendMode(x.mode) {
        SpErr("Unsupported send command:" + x.mode + ". Please specify a valid one");
        return;
      }
      requests := requests + [WriteRequest(port, x.data, x.mode)];
    }

    // spHandlerOpen. `openErr` is the error serial.Open returned, `rds`
    // the reads the device gives the reader until it stops. A buffer type
    // other than timed, timedraw or default panics before the port is
    // registered. Otherwise the port is registered, marked open and the
    // list broadcast; the reader runs; the list is broadcast again and the
    // deferred Unregister runs.
    method SpHandlerOpen(portname: string, baud: int, buftype: string, openErr: Option<string>, rds: seq<Read>)
      returns (outcome: OpenOutcome)
      modifies this, serialHub, portList
      ensures openErr.Some? ==>
        outcome == OpenFailed && sys == old(sys) + [Text(OpenFailText(openErr.value, portname, baud))] &&
        portList.Ports == old(portList.Ports) && serialHub.ports == old(serialHub.ports) &&
        serialHub.events == old(serialHub.events)
      ensures openErr.None? && !KnownBufType(buftype) ==>
        outcome == Panicked && sys == old(sys) &&
        portList.Ports == old(portList.Ports) && serialHub.ports == old(serialHub.ports) &&
        serialHub.events == old(serialHub.events)
      ensures openErr.None? && KnownBufType(buftype) ==>
        outcome.Ran? && fresh(outcome.port) &&
        outcome.port.name == portname && outcome.port.baud == baud && outcome.port.bufferType == buftype &&
        outcome.port.delivered == Run(buftype, portname, baud, rds).delivered &&
        outcome.port.sys == Run(buftype, portname, baud, rds).sys
          + (if Run(buftype, portname, baud, rds).stop.StoppedOnError? then [PortListRefreshed] else []) &&
        serialHub.events == old(serialHub.events) + [Registered(outcome.port), Unregistered(outcome.port)] &&
        serialHub.ports == old(serialHub.ports) &&
        portList.Ports == MarkSpec(old(portList.Ports), portname, true) &&
        sys == old(sys) + [Listing(portList.Ports), Listing(portList.Ports)]
      ensures requests == old(requests) && connections == old(connections)
    {
      if openErr.Some? {
        sys := sys + [Text(OpenFailText(openErr.value, portname, baud))];
        return OpenFailed;
      }
      var p := new SerPort(portname, baud, buftype);
      var kind := FlowFor(buftype);
      if kind.None? {
        return Panicked;
      }
      Serve(p, buftype, rds);
      return Ran(p);
    }

    // The part of spHandlerOpen after the buffer type is known: register
    // and list the port, run its reader, list again and unregister.
    method Serve(p: SerPort, buftype: string, rds: seq<Read>)
      requires KnownBufType(buftype) && p !in serialHub.ports
      requires p.sys == [] && p.delivered == [] && !p.isClosingDueToError && !p.sendChannelsClosed
      modifies this, serialHub, portList, p
      ensures p.delivered == Run(buftype, p.name, p.baud, rds).delivered
      ensures p.sys == Run(buftype, p.name, p.baud, rds).sys
          + (if Run(buftype, p.name, p.baud, rds).stop.StoppedOnError? then [PortListRefreshed] else [])
      ensures serialHub.events == old(serialHub.events) + [Registered(p), Unregistered(p)]
      ensures serialHub.ports == old(serialHub.ports)
      ensures portList.Ports == MarkSpec(old(portList.Ports), p.name, true)
      ensures sys == old(sys) + [Listing(portList.Ports), Listing(portList.Ports)]
      ensures requests == old(requests) && connections == old(connections)
    {
      serialHub.Register(p);
      portList.MarkPortAsOpened(p.name);
      sys := sys + [Listing(portList.Ports)];
      RunPort(p, buftype, rds);
    }

    // The reader's run, then the list broadcast again and the deferred
    // Unregister.
    method RunPort(p: SerPort, buftype: string, rds: seq<Read>)
      requires KnownBufType(buftype)
      requires p.sys == [] && p.delivered == [] && !p.isClosingDueToError && !p.sendChannelsClosed
      modifies this, serialHub, p
      ensures p.delivered == Run(buftype, p.name, p.baud, rds).delivered
      ensures p.sys == Run(buftype, p.name, p.baud, rds).sys
          + (if Run(buftype, p.name, p.baud, rds).stop.StoppedOnError? then [PortListRefreshed] else [])
      ensures serialHub.events == old(serialHub.events) + [Unregistered(p)]
      ensures serialHub.ports == old(serialHub.ports) - {p}
      ensures sys == old(sys) + [Listing(portList.Ports)]
      ensures requests == old(requests) && connections == old(connections)
    {
      p.Reader(buftype, rds);
      ghost var st := Run(buftype, p.name, p.baud, rds);
      assert p.isClosingDueToError == st.stop.StoppedOnError?;
      ghost var ran := p.sys;
      assert ran == st.sys + (if st.stop.StoppedOnError? then [PortListRefreshed] else []);
      sys := sys + [Listing(portList.Ports)];
      serialHub.Unregister(p);
    }

    // The OnClose callback spHandlerOpen installs on the port: mark it
    // closed in the list and broadcast the list.
    method OnPortClose(portname: string)
      modifies this, portList
      ensures portList.Ports == MarkSpec(old(portList.Ports), portname, false)
      ensures sys == old(sys) + [Listing(portList.Ports)]
      ensures requests == old(requests) && connections == old(connections)
    {
      portList.MarkPortAsClosed(portname);
      sys := sys + [Listing(portList.Ports)];
    }
  }
}
