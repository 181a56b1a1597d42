# Arduino Create Agent: serial command and buffering engine, in Dafny

This project models the core of the Arduino Create Agent. The agent is a
local service. A web page talks to it over a websocket. It lists the serial
ports of the machine, opens and closes them, forwards the commands the page
sends, and sends back what the board answers. It also resolves upload and
programmer command lines, and it installs tools and boards.

What is modelled, one Dafny module per part of the agent:

- **Command dispatch** (`Hub`, hub.go and the older copy in serial.go).
  `checkCmd` matches a verb against the lower-cased, trimmed line and takes
  the arguments from the original line. It handles `open`, `close`, `send*`,
  `list`, `downloadtool`, `log`, `memstats`, `hibernate` and the others.
  `spWrite` parses `send`, `sendnobuf` and `sendraw`. `HubState` is a class
  holding the registered connections, the broadcast log, the open-port
  registry and the port list.
- **Registries.**
  - `SerialHub` is the open-port registry (serialhub.go).
  - `PortList` is the discovered-port list (serialportlist.go), with its
    add filter and its IsOpen marking.
  - `SerialList` holds the name and USB-id filters of seriallist.go and the
    generic `Filter` of utilities.go.
- **The port reader and writers** (`SerialPort`, serialport.go). In
  "default" mode the reader holds back a trailing incomplete UTF-8 sequence
  (RFC 3629, section 3) and prepends it to the next read. `Utf8` decodes a
  byte sequence the way Go's `utf8.DecodeRune` does. The writers count and
  forward messages.
- **Output bufferflows** (`Bufferflows`). The default, timed, timedraw and
  timedbinary flows are classes. Input accumulates, and a tick flushes it
  to an output log. Timedraw sends its bytes as base64 (RFC 4648,
  section 4).
- **Flow control for CNC firmware.**
  - `CommandQueue` is the FIFO queue of commands with its byte budget
    (queue.go). It is a linked list of nodes with a ghost footprint.
  - `Grbl` and `Tinyg` are the GRBL and TinyG bufferflows. They count the
    bytes sent to the firmware's receive buffer, split incoming text into
    lines, and release queued commands on acknowledgement.
  - `FlowText` holds the line-splitting and command-rewriting text
    functions they share.
- **Upload and programmer command templates.**
  - `Templates` resolves the `{key}` placeholders.
  - `Upload` covers upload/upload.go.
  - `Programmer` covers programmer/programmer.go.
  - `CompilerCommand` covers programmer.go: `formatCmdline`, colons to
    underscores, and `findNewPortName`.
  - `Boards` and `Platforms` cover the boards.txt and platform.txt parsers,
    the option merging and the expansion.
- **Tools.**
  - `Download` covers tools/download.go: `commonPrefix`, `findBaseDir`,
    `removeStringFromSlice` and `findTool`.
  - `Pkgs` covers v2/pkgs/tools.go: `rename`, `FindTool`, `writeInstalled`
    and the Install/Remove decisions.
  - `Updater` covers the temp-suffix helpers and the update decisions of
    updater/updater_default.go.
  - `Utilities` covers `SafeJoin`.
  - `Discovery` covers the device merging of discovery/serial.go.
- **Windows port list** (`SerialListWindows`, seriallist_windows.go). It
  covers the little-endian byte-pair decoder, the "(COMn)" name parsing and
  the VID/PID extraction from device ids.
- **Vendored algorithms.**
  - `IniFlags` and `IniReader` model the INI flag-file reader of iniflags:
    BOM stripping, comments, quoting and unquoting, imports and import
    recursion.
  - `WagnerFischer` is the edit distance of smetrics. It is an imperative
    table fill, proved equal to a recursive Levenshtein definition.
  - `Differ` is the `differ` helper of upload/utils.go and
    programmer/utils.go.

Support modules:

- `Wrappers`: Option and Result.
- `GoStrings`: Go's `strings` package on `seq<char>`, one char per byte.
- `Paths`: Go's `path.Clean`, `Join`, `Dir`, `Base` and `Ext`.
- `Bytes`: conversion between bytes and chars.
- `Strconv`: `Atoi` and `Itoa`.

Channels, tickers and goroutines become explicit methods that append to an
output log, such as `OnIncomingData`, `Tick` and `Close`. Where the source
iterates over a Go map, the order is a nondeterministic choice or an
explicit parameter.

Behaviour of the source that the model keeps as written:

- The command list that hub.go advertises contains "memorystats", but
  `checkCmd` only understands "memstats" (`Hub.MemoryStatsNotUnderstood`).
- `open` with buffer type "timedbinary" panics, as does any other type
  besides timed, timedraw and default.
- The reader holds back a validly encoded U+FFFD as if it were incomplete
  (`Utf8.ReplacementCharHeldBack`). Once an undecodable byte heads the
  carry, the stream stalls (`SerialPort.StuckCarry`).
- The timed flows drop unflushed data on Close. The timedbinary flow's
  Close never signals that it is done.
- In the GRBL flow, the second `SetPaused(false, 2)` of the incoming-data
  handler cannot run (`Grbl.BannerWipes`).
- TinyG's `BreakApartCommands` drops the text after the last newline
  (`Tinyg.DropsUnterminatedTail`).
- `addTempSuffixToPath` compares `filepath.Ext` (which keeps the dot) with
  "exe", so every path gets "-temp" appended, ".exe" ones included
  (`Updater.AddTempAppends`).
- programmer.go's `doSerial` never reads the port that the reset returns
  (`Programmer.ResetPortUnused`).
- In seriallist_windows.go the PID is matched by `\d+`, so a hexadecimal
  PID is cut at its first letter. A panic on a name without "(COM", once
  recovered, gives an empty list.
- In iniflags:
  - `quoteValue` and `unquoteValue` are not inverses. The two characters
    backslash and n do not survive the round trip
    (`IniFlags.BackslashNNotRestored`).
  - A lone leading quote makes `unquoteValue` panic, so its "unclosed
    string" branch cannot be reached.
  - A multi-line value whose key is empty is dropped.
- upload/upload_test.go expects `{fqbn}` to be substituted, but
  `PartiallyResolve` never does this. The model follows the code.

## Model

| member | source | states |
|---|---|---|
| Hub.DispatchOpen | hub.go:161-194 | a line whose lowered form starts with "open" is parsed as an open command |
| Hub.DispatchClose | hub.go:196-204 | a line whose lowered form starts with "close" closes its second space-separated field, or reports that no port was given |
| Hub.DispatchSend | hub.go:213-215 | a line whose lowered form starts with "send" is handed whole to spWrite |
| Hub.DispatchDownload | hub.go:218-263 | a line whose lowered form starts with "downloadtool" is parsed as a download request |
| Hub.LoweredPrefix | hub.go:161 | a line starting with a word of letters, followed by something other than a newline, is lowered to a line starting with that word in lower case |
| Hub.VerbLowered | hub.go:161 | a lower-case verb followed by a space is still at the head of the lowered line |
| Hub.OpenRoundTrip | hub.go:168-194 | "open PORT BAUD BUFTYPE" opens that port, at that rate, with that buffer type, and the port keeps its case |
| Hub.OpenFields | hub.go:170-194 | the open command's fields are the port, the decimal baud rate and the buffer type |
| Hub.OpenDefaultBuffer | hub.go:187-194 | without a buffer type the "default" buffer is used |
| Hub.OpenFieldsDefault | hub.go:170-194 | "open PORT BAUD" parses to that port and rate with the "default" buffer |
| Hub.CloseRoundTrip | hub.go:196-204 | "close PORT" closes that port, and the port keeps its case |
| Hub.SendRouted | hub.go:161-215 | the verb is matched whatever its case: a send line is routed to spWrite, which gets the original line |
| Hub.DownloadRoundTrip | hub.go:218-246 | "downloadtool TOOL VERSION PACK BEHAVIOUR" asks for those four, except that a version starting with "http" is replaced by "latest" |
| Hub.DownloadFields | hub.go:220-246 | the download fields come from the second to the fifth space-separated field, with the old-interface URL ignored |
| Hub.DownloadDefaults | hub.go:220-246 | "downloadtool TOOL" asks for the latest version of TOOL from the arduino package, keeping what is installed |
| Hub.MemoryStatsNotUnderstood | hub.go:95-107 | the command list advertises "memorystats", but that line is answered as an unknown command |
| Hub.MemStatsUnderstood | hub.go:272-273 | the verb checkCmd does understand is "memstats" |
| Hub.NotUnderstoodIff | hub.go:168-282 | a line gets "Could not understand command." exactly when its lowered form starts with none of the thirteen verbs; the open and close errors are other texts |
| Hub.LoweredLetters | hub.go:161 | a line of lower-case letters is its own lowered form |
| Hub.ParseSendRoundTrip | hub.go:440-452 | a send line with a verb and a space-free port parses back into its three fields, and the data keeps its spaces |
| Hub.ParseSend | hub.go:440-452 | a line without three space-separated fields is reported with the text after the dropped leading space; every line it accepts is its three fields joined by spaces, and the first two hold no space |
| Hub.FlowFor | hub.go:336-345 | a bufferflow is built exactly for the buffer types "timed", "timedraw" and "default", and the kind built is the one that type names |
| Hub.FlowForInverse | hub.go:336-345 | each kind of bufferflow is chosen by its own buffer type and by no other |
| Hub.Connection.constructor | conn.go:37-42 | a new connection has an empty, open send channel of the given capacity |
| Hub.HubState.constructor | hub.go:63-93 | a new hub has no connections, no ports and has broadcast nothing |
| Hub.HubState.UnregisterConnection | hub.go:113-119 | an unknown connection is left alone; a known one is removed and its send channel closed |
| Hub.HubState.SendToRegisteredConnections | hub.go:121-132 | every connection with room in its channel receives the data; every other one is unregistered instead of blocking the hub |
| Hub.HubState.SpErr | hub.go:426-429 | the error is broadcast wrapped as {"Error" : ...} |
| Hub.HubState.SpClose | hub.go:431-438 | a registered port is announced and asked to close; any other name is reported as an error |
| Hub.HubState.SpWrite | hub.go:440-478 | the line is parsed, then the port looked up, then the buffering mode checked, each failure reported; only then is the data handed to the port |
| Hub.HubState.SpHandlerOpen | hub.go:285-367 | an open error is broadcast as OpenFail; an unknown buffer type panics before registering; otherwise the port is registered, marked open and listed, the reader runs (its messages end with the refreshed list when a read failed), and the port is unregistered at the end |
| Hub.HubState.OnPortClose | hub.go:329-332 | the port is marked closed in the list and the list is broadcast |
| Hub.OpenCmd | hub.go:168-194 | open gives an open action or an error; it opens exactly when there are three fields, a non-empty port and a baud rate that parses, and then the port is the second field, the rate fits in 64 bits and the buffer type holds no newline |
| Hub.ParseDownload | hub.go:218-246 | a line with fewer than two fields is refused; otherwise the tool is the second field and the version never starts with "http" |
| Hub.CheckCmd | hub.go:156-283 | a hibernating agent does nothing and only then; each of open, close, send and downloadtool is started only for a line whose lowered form starts with its verb, with its arguments taken from the original line |
| CommandQueue.QueueNode.constructor | queue.go:33-37 | a node holds the command text and id it was made with and no successor |
| CommandQueue.Queue.constructor | queue.go:49-53 | a new queue is empty and well formed |
| CommandQueue.Queue.Len | queue.go:57-61 | the count is the number of commands queued |
| CommandQueue.Queue.LenOfCmds | queue.go:65-69 | lenOfCmds is the total length of the queued command texts |
| CommandQueue.Queue.HeadNullIffTailNull | queue.go:40-46 | head and tail are both nil exactly when the queue is empty |
| CommandQueue.Queue.Push | queue.go:74-89 | the command is appended at the tail; count and lenOfCmds grow by one and by its length |
| CommandQueue.Queue.Poll | queue.go:95-113 | an empty queue yields two empty strings and stays empty; otherwise the oldest command is removed and returned and the counters drop accordingly |
| CommandQueue.Queue.Peek | queue.go:119-129 | returns the oldest command without removing it, or empty strings for an empty queue |
| CommandQueue.Queue.Delete | queue.go:135-143 | the queue is emptied and both counters are zero |
| Bufferflows.DefaultFlow.constructor | bufferflow_default.go:33-40 | a new default flow for a port has sent nothing and received nothing |
| Bufferflows.DefaultFlow.Init | bufferflow_default.go:43-46 | Init starts the consuming loop and sends nothing |
| Bufferflows.DefaultFlow.OnIncomingData | bufferflow_default.go:48-66 | each chunk received is sent on at once as one message for the flow's port |
| Bufferflows.DefaultFlow.Close | bufferflow_default.go:56-72 | Close ends the loop and closes the input without sending anything |
| Bufferflows.TimedFlow.constructor | bufferflow_timed.go:37-47 | a new timed flow starts with an empty buffer and no port |
| Bufferflows.TimedFlow.Init | bufferflow_timed.go:50-53 | Init starts the loop and sends nothing |
| Bufferflows.TimedFlow.OnIncomingData | bufferflow_timed.go:59-61 | a received chunk is appended to the buffer and the port recorded; nothing is sent |
| Bufferflows.TimedFlow.Tick | bufferflow_timed.go:62-70 | a tick sends the whole non-empty buffer as one message and empties buffer and port; an empty buffer sends nothing |
| Bufferflows.TimedFlow.Close | bufferflow_timed.go:71-88 | Close stops the ticker and the loop; what is still buffered is never sent |
| Bufferflows.TimedRawFlow.constructor | bufferflow_timedraw.go:37-47 | a new raw timed flow starts with a nil buffer and no port |
| Bufferflows.TimedRawFlow.Init | bufferflow_timedraw.go:50-53 | Init starts the loop and sends nothing |
| Bufferflows.TimedRawFlow.OnIncomingData | bufferflow_timedraw.go:59-61 | the chunk's bytes are appended to the buffer, the port recorded, and the buffer stays nil only while nothing but empty chunks came |
| Bufferflows.TimedRawFlow.Tick | bufferflow_timedraw.go:62-71 | a tick on a non-nil buffer sends it as one raw message for the flow's port and resets the buffer to nil and the port to ""; on a nil buffer it sends nothing and changes nothing |
| Bufferflows.TimedRawFlow.Close | bufferflow_timedraw.go:72-89 | Close stops ticker and loop; the pending buffer is never sent |
| Bufferflows.BinaryBuffer.constructor | bufferflow_timedbinary.go:19-22 | the package-level buffer starts nil with no port |
| Bufferflows.TimedBinaryFlow.constructor | bufferflow_timedbinary.go:10-17 | a binary flow holds its name, its port and the shared package buffer |
| Bufferflows.TimedBinaryFlow.Init | bufferflow_timedbinary.go:24-29 | Init resets the shared buffer and port, whatever was in them, and starts the loop |
| Bufferflows.TimedBinaryFlow.OnIncomingDataBinary | bufferflow_timedbinary.go:34-37 | received bytes are appended to the shared buffer and the flow's port recorded |
| Bufferflows.TimedBinaryFlow.Tick | bufferflow_timedbinary.go:38-45 | a tick sends a non-nil shared buffer as one raw message and resets buffer and port |
| Bufferflows.TimedBinaryFlow.Close | bufferflow_timedbinary.go:111-114 | Close stops the ticker and closes the input but never signals done, so the loop keeps running |
| Bufferflows.TimedBinaryFlow.ReceiveFromClosedInput | bufferflow_timedbinary.go:34-37 | after Close the loop receives nil from the closed input: the buffer is unchanged and the port recorded again |
| Bufferflows.BinaryPolicies | bufferflow_timedbinary.go:55-109 | the binary flow never blocks, splits, skips, pauses, unpauses, wipes or suppresses a command, and always sends incoming data back |
| Bufferflows.SharedBufferWipe | bufferflow_timedbinary.go:19-29 | whatever one binary flow has buffered and not yet sent is gone once a second flow sharing the package buffer runs Init, and neither flow sent it |
| Bufferflows.TimedFlow.Flush | bufferflow_timed.go:63-70 | a tick on a non-empty buffer sends it whole under the port and empties buffer and port |
| Bufferflows.TimedRawFlow.Flush | bufferflow_timedraw.go:63-71 | a tick on a non-nil buffer sends it as one raw message and resets it to nil |
| Bufferflows.TimedBinaryFlow.Flush | bufferflow_timedbinary.go:39-45 | a tick on a non-nil shared buffer sends it as one raw message and resets buffer and port |
| Bufferflows.TimedReceived | bufferflow_timed.go:59-61 | a received chunk keeps everything accounted for: sent data then buffer is still all data received |
| Bufferflows.TimedSent | bufferflow_timed.go:62-70 | sending the pending buffer keeps everything accounted for and leaves nothing pending |
| Bufferflows.RawReceived | bufferflow_timedraw.go:59-61 | received bytes keep everything accounted for, and the buffer stays nil only for empty chunks |
| Bufferflows.RawSent | bufferflow_timedraw.go:62-71 | sending the pending bytes keeps everything accounted for and leaves a nil buffer |
| SerialPort.RunStopped | serialport.go:89-95 | once the reader has left its loop, later reads change nothing |
| SerialPort.StepEffect | serialport.go:99-133 | a read is handed to the bufferflow only when the port is not closing, the read returned bytes and no error; any other read hands nothing on |
| SerialPort.StepStops | serialport.go:89-170 | the loop ends exactly on a close (as a shutdown), and on an empty read that failed or came less than a millisecond after the previous one (as an error) |
| SerialPort.AcceptConserves | serialport.go:112-129 | one "default" read keeps delivered-then-held-back equal to all accepted bytes in order |
| SerialPort.StepConserves | serialport.go:85-133 | one loop iteration in "default" mode loses and duplicates nothing |
| SerialPort.RunConserves | serialport.go:79-176 | in "default" mode the data handed on, followed by what is held back, is every accepted read in order |
| SerialPort.RunTimedPassesThrough | serialport.go:105-111 | in the "timed" and "timedraw" modes every accepted read is handed on unchanged and nothing is held back |
| SerialPort.AcceptBoundary | serialport.go:112-129 | a "default" read of the start of a decodable stream keeps the handed-on data on a rune boundary |
| SerialPort.StepBoundary | serialport.go:85-133 | one loop iteration keeps the handed-on data on a rune boundary of the stream |
| SerialPort.RunBoundary | serialport.go:79-176 | whatever was handed on ends on a rune boundary of the decodable stream being read |
| SerialPort.DecodableStreamDelivered | serialport.go:112-129 | when all accepted reads together are decodable, every rune is handed on whole and nothing stays held back |
| SerialPort.StuckCarry | serialport.go:117-122 | once a byte that starts no rune, or an encoded U+FFFD, is held back, every later read is held back too and the bufferflow only receives empty strings |
| SerialPort.SplitRuneJoined | serialport.go:112-129 | a four-byte rune split over two reads is held back after the first and handed on whole after the second |
| SerialPort.DecodeChunk | serialport.go:117-128 | the inner decoding loop returns the decoded runes and the undecodable rest that the specification function gives |
| SerialPort.SerPort.constructor | serialport.go:271-300 | a port opened with a name, a baud rate and a buffer type is not closing and has nothing queued, written or delivered |
| SerialPort.SerPort.ReadOnce | serialport.go:85-171 | one iteration of the reader loop makes the port's state the next state of the reader function |
| SerialPort.SerPort.Reader | serialport.go:79-176 | the reader loop leaves the port in the state the reader function gives for the reads; when a read failed the port is closed and the refreshed port list broadcast after the reader's messages |
| SerialPort.SerPort.ReadLoop | serialport.go:85-172 | the loop leaves the port's delivered data, messages and closing flags those of the reader function's state, and changes nothing else |
| SerialPort.SerPort.SpCloseReal | serialport.go:352-357 | the bufferflow and the device are closed and the refreshed port list is broadcast; nothing else changes |
| SerialPort.SerPort.SpHandlerClose | serialport.go:346-350 | the port is marked closing, the closing is announced, the port closed for real and the refreshed port list broadcast after the announcement |
| SerialPort.SerPort.WriterNoBuf | serialport.go:207-237 | each message taken lowers itemsInBuffer by one and is written, up to and including the first failed write; the shutdown is announced, the device closed and the refreshed port list broadcast afterwards |
| SerialPort.SerPort.WriterRaw | serialport.go:241-269 | every message is base64-decoded and the decoded bytes are written, also after a decoding error; the end of the loop is announced |
| SerialPort.Taken | serialport.go:214-230 | writerNoBuf takes the messages up to and including the first failed write, or all of them |
| SerialPort.SerPort.WriterBuffered | serialport.go:180-203 | every buffered message is passed on, as its bytes and in order, to the unbuffered writer; the end of the loop is announced |
| SerialPort.Accept | serialport.go:99-133 | accepted bytes are recorded and one delivery is added; the timed buffers deliver them unchanged, the default one decodes them after the held-back bytes |
| SerialPort.Step | serialport.go:85-171 | once the loop is left nothing changes; messages are only added; a delivery is made exactly when the read is accepted, one per accepted read |
| SerialPort.Run | serialport.go:85-172 | there are as many deliveries as accepted reads, and no more than reads |
| SerialHub.Registry.constructor | serialhub.go:34-38 | a new serial hub has no ports and has called no callback |
| SerialHub.Registry.Register | serialhub.go:41-47 | OnRegister is called once and the port joins the set |
| SerialHub.Registry.Unregister | serialhub.go:50-58 | for a port whose channels are still open (closing them twice panics), OnUnregister is called once, the port leaves the set and both of its send channels are closed; nothing else of the port changes |
| SerialHub.Registry.FindPortByName | serialhub.go:60-72 | a port is found exactly when some registered port has the name up to case, and what is returned is one of those |
| SerialHub.RegisteredIsNamed | serialhub.go:60-72 | a registered port is found under its own name written in any case |
| SerialHub.UnregisterKeepsOthers | serialhub.go:50-72 | unregistering one port leaves every other port findable as before |
| PortList.IndexOfName | serialportlist.go:190-197 | the position of the first item with that name, or none when no item has it |
| PortList.RemoveSpec | serialportlist.go:180-188 | the list after remove is no longer than before |
| PortList.SerialPortList.constructor | serialportlist.go:38-40 | a new port list is empty |
| PortList.SerialPortList.Reset | serialportlist.go:131-135 | reset empties the list |
| PortList.SerialPortList.GetPortByName | serialportlist.go:190-197 | the scan returns the first item with that name, or nothing when none has it |
| PortList.SerialPortList.Add | serialportlist.go:137-178 | add updates the list as the add specification says |
| PortList.SerialPortList.Remove | serialportlist.go:180-188 | remove updates the list as the remove specification says |
| PortList.SerialPortList.MarkPortAsOpened | serialportlist.go:56-63 | IsOpen is set on the first item with that name, if there is one |
| PortList.SerialPortList.MarkPortAsClosed | serialportlist.go:66-73 | IsOpen is cleared on the first item with that name, if there is one |
| PortList.UniqueIndex | serialportlist.go:190-197 | the first position of a name is unique |
| PortList.AddRejected | serialportlist.go:138-152 | a port that is not serial, has no vid, has a zero vid or pid, or fails the filter leaves the list unchanged |
| PortList.AddExisting | serialportlist.go:157-165 | adding a listed address refreshes only the serial number and the ids of its item; length, order and IsOpen marks stay |
| PortList.AddNew | serialportlist.go:166-177 | adding a new address appends one closed item with baud 0 and no buffer algorithm |
| PortList.AddKeepsUnique | serialportlist.go:137-178 | when add is the only way in, names stay unique |
| PortList.RemoveSnoc | serialportlist.go:185-187 | removal works item by item: a last item survives exactly when its name differs from the address |
| PortList.RemoveDropsExactly | serialportlist.go:180-188 | after remove no item has the address, every other item is kept, and the kept items keep their order |
| PortList.RemoveKeepsUnique | serialportlist.go:180-188 | removing keeps names unique |
| PortList.MarkOnlyFlag | serialportlist.go:56-73 | marking changes only the IsOpen flag of the item with that name, and nothing when the name is not listed |
| PortList.MarkOpenThenClosed | serialportlist.go:56-73 | opening and then closing a listed closed port gives back the list it started from |
| SerialList.EnumerateSerialPorts | seriallist.go:41-80 | an enumeration error gives an empty list and that error; otherwise the USB ports with both ids non-zero, kept only if their name matches a non-empty filter |
| SerialList.UsbPortsSound | seriallist.go:49-58 | every listed port comes from a USB entry with both ids set and carries "0x" + VID, "0x" + PID and the serial number |
| SerialList.UsbPortsComplete | seriallist.go:49-58 | every USB entry with both ids set is listed |
| SerialList.SelectExact | seriallist.go:61-75 | the filter keeps exactly the ports whose name matches |
| SerialList.Filter | utilities.go:70-78 | the ports satisfying the predicate, in order; nil when none does |
| SerialList.FindPortByLowerName | seriallist.go:82-94 | a port is found exactly when a registered port's lower-cased name equals the lower-cased name, and it is one of those |
| FlowText.WipedText | bufferflow_grbl.go:456 | the wipe notice is the JSON object {"Cmd":"WipedQueue","QCnt":...} with the count and the port |
| FlowText.WipedCountReadable | bufferflow_grbl.go:456 | the QCnt field of the notice reads back with Atoi as the count itemsInBuffer held |
| FlowText.BreakAt | bufferflow_grbl.go:51 | a line break is an optional carriage return and one newline, or two when the pattern allows it |
| FlowText.FirstBreakFrom | bufferflow_grbl.go:109 | the leftmost place where a line break starts, or none |
| FlowText.Lines | bufferflow_grbl.go:109 | splitting on the line-break pattern always yields at least one piece |
| FlowText.NoBreakNoNewline | bufferflow_grbl.go:109 | where no line break starts there is no newline |
| FlowText.LinesNewlineFree | bufferflow_grbl.go:109-124 | no piece holds a newline, and the text is split exactly when it holds one |
| FlowText.CloseBeforeNewline | bufferflow_grbl.go:235 | the first ')' on the same line, which ends a lazy "(...)" match |
| FlowText.StripParens | bufferflow_grbl.go:235 | removing "(...)" groups only removes characters |
| FlowText.StripSemicolons | bufferflow_grbl.go:236 | removing ";..." tails leaves no ';' and only removes characters |
| FlowText.StripParensGroup | bufferflow_grbl.go:235 | a "(...)" group on one line leaves nothing of itself |
| FlowText.StripSemicolonsLine | bufferflow_grbl.go:236 | the text before the first ';' of a line stays and the rest of the line goes |
| FlowText.StripCommentsPlain | bufferflow_grbl.go:235-236 | a text without '(' or ';' is left as it is |
| Grbl.Wipe | bufferflow_grbl.go:426-457 | a wipe empties the queue, unpauses with release type 2, lowers itemsInBuffer by one for the closed channel's receive and announces the count |
| Grbl.FeedSnoc | bufferflow_grbl.go:128-194 | the lines of one call are handled one after the other, in order |
| Grbl.AckConserves | bufferflow_grbl.go:132-165 | an ok or error line retires at most the oldest command, and what was reported followed by what is queued never changes |
| Grbl.EchoConserves | bufferflow_grbl.go:187-192 | echoing a line to the client changes neither the queue nor the reported commands |
| Grbl.HandleLineConserves | bufferflow_grbl.go:128-194 | outside a restart banner no command is lost: reported-then-queued is unchanged by any line |
| Grbl.FeedConserves | bufferflow_grbl.go:101-202 | over a whole call, reported-then-queued is unchanged when no banner arrives |
| Grbl.FeedQueueSuffix | bufferflow_grbl.go:101-202 | the queue only ever loses its oldest commands, or all of them |
| Grbl.AckUnpauses | bufferflow_grbl.go:158-164 | after an acknowledgement the flow stays paused only while at least BufferMax bytes are outstanding |
| Grbl.BannerWipes | bufferflow_grbl.go:168-175 | a "Grbl" banner empties the queue, unpauses with release type 2 once, becomes the version and is echoed |
| Grbl.StatusDeduplicated | bufferflow_grbl.go:178-185 | a status report is echoed exactly when it differs from the previous one, and becomes the last status either way |
| Grbl.IncomingHoldsNoLine | bufferflow_grbl.go:104-198 | the text held back between calls never holds a newline |
| Grbl.IncomingPartial | bufferflow_grbl.go:109-124 | data without a newline is only held back |
| Grbl.Clean | bufferflow_grbl.go:234-237 | a cleaned command has no spaces, no ';' and no newline it did not have |
| Grbl.BreakItemsWellFormed | bufferflow_grbl.go:233-265 | every command produced is "?" or a non-empty newline-free command followed by one newline |
| Grbl.BreakApartWellFormed | bufferflow_grbl.go:226-270 | every command BreakApartCommands returns is well formed |
| Grbl.BreakApartPlainLine | bufferflow_grbl.go:226-270 | a single ordinary line without comments or spaces is passed on with a newline and the flow is left alone |
| Grbl.SpecialCommandsSkip | bufferflow_grbl.go:284-343 | pause, resume and soft reset bypass the buffer, the skip test is exactly those or '?', and no command is treated as returning no response |
| Grbl.GrblFlow.constructor | bufferflow_grbl.go:38-60 | a new flow is unpaused with one type-1 release pending and an empty queue |
| Grbl.GrblFlow.SetPaused | bufferflow_grbl.go:408-423 | the paused flag is set, and unpausing signals the given release type |
| Grbl.GrblFlow.Pause | bufferflow_grbl.go:272-276 | pausing only sets the flag |
| Grbl.GrblFlow.Unpause | bufferflow_grbl.go:278-282 | unpausing clears the flag with a type-1 release |
| Grbl.GrblFlow.BlockUntilReady | bufferflow_grbl.go:62-99 | the command is always queued; the flow pauses once BufferMax bytes are outstanding; a paused flow drains pending releases and waits, and a type-2 release cancels the send |
| Grbl.GrblFlow.ReleaseLock | bufferflow_grbl.go:345-354 | the queue is emptied and a type-2 release signalled |
| Grbl.GrblFlow.LocalBufferWipe | bufferflow_grbl.go:426-457 | the flow's state becomes the wipe of its old state |
| Grbl.GrblFlow.Broadcast | bufferflow_grbl.go:187-192 | the line is echoed to the client |
| Grbl.GrblFlow.RetireOne | bufferflow_grbl.go:132-156 | an ok or error line retires the oldest command, reporting it as complete or failed |
| Grbl.GrblFlow.ResumeIfRoom | bufferflow_grbl.go:158-164 | the flow is unpaused when fewer than BufferMax bytes are outstanding |
| Grbl.GrblFlow.BannerOne | bufferflow_grbl.go:168-175 | a banner line wipes the flow and records the version |
| Grbl.GrblFlow.HandleOne | bufferflow_grbl.go:128-194 | one pass of the line loop does what the line-handling function says |
| Grbl.GrblFlow.FeedLines | bufferflow_grbl.go:128-194 | the loop over the complete lines does what handling them in order says |
| Grbl.GrblFlow.OnIncomingData | bufferflow_grbl.go:101-202 | the received data is appended, the complete lines handled and the unfinished last line kept |
| Grbl.GrblFlow.BreakApartCommands | bufferflow_grbl.go:226-270 | the commands and the new flow state are what the break-apart function gives |
| Grbl.HandleLine | bufferflow_grbl.go:128-194 | handling one line keeps the held-back text and only adds to what was broadcast and to the releases signalled |
| Grbl.Feed | bufferflow_grbl.go:128-194 | handling the lines of a call keeps the held-back text and only adds to what was broadcast and to the releases signalled |
| Grbl.BreakApart | bufferflow_grbl.go:226-270 | breaking a command apart leaves the held-back text, the last status and the version alone and only adds to what was broadcast |
| Tinyg.FeedSnoc | bufferflow_tinyg.go:352-549 | the complete lines of one call are handled one after the other, in order |
| Tinyg.WithNewlines | bufferflow_tinyg.go:543 | each echoed line gets its newline back, one echo per line |
| Tinyg.FeedEchoesAll | bufferflow_tinyg.go:352-549 | every complete line is echoed with "\n" appended, in order, whatever it says |
| Tinyg.FeedRetiresOldest | bufferflow_tinyg.go:357-367 | the queue only ever loses its oldest commands: what is left is a suffix of what was queued |
| Tinyg.ResponseUnpauses | bufferflow_tinyg.go:489-496 | after a response the flow stays paused only while at least BufferMax (200) bytes are outstanding |
| Tinyg.IncomingHoldsNoLine | bufferflow_tinyg.go:327-348 | the text held back in LatestData never holds a newline |
| Tinyg.PiecesFrom | bufferflow_tinyg.go:596-598 | marking '!', '~' and '%' with a newline and splitting always gives at least one piece |
| Tinyg.SplitMarked | bufferflow_tinyg.go:596-598 | the split of the marked command is the piece list read off the original command |
| Tinyg.EnableJson | bufferflow_tinyg.go:665 | the command that puts the controller back in JSON mode neither turns verbosity off nor echo on |
| Tinyg.ReplaceHarmless | bufferflow_tinyg.go:647-660 | a rewritten command never asks for jv=0 or ec=1 any more |
| Tinyg.RewriteAllHarmless | bufferflow_tinyg.go:638-667 | no command of the second pass turns JSON verbosity off or echo on |
| Tinyg.RewriteRestoresJson | bufferflow_tinyg.go:662-666 | a command starting with '$' or '?' is always followed by {"ej":""} |
| Tinyg.FirstPassRebuilds | bufferflow_tinyg.go:594-636 | a one-piece command gets a newline; otherwise the kept commands followed by the dropped tail make up the marked command, and the tail holds no '!', '~' or '%' |
| Tinyg.DropsUnterminatedTail | bufferflow_tinyg.go:621-632 | the text after the last newline is dropped: of "a\nb" only "a\n" is sent |
| Tinyg.SpecialCommandsSkip | bufferflow_tinyg.go:715-766 | a command skips the buffer exactly when it pauses ('!') or resumes ('~', '%'), and a wipe ('%') also resumes |
| Tinyg.CommentIgnored | bufferflow_tinyg.go:715-766 | a "(...)" comment in front of a command changes none of the four decisions |
| Tinyg.TinygFlow.constructor | bufferflow_tinyg.go:129-235 | a new flow is unpaused, with no pending release, an empty queue and no held text |
| Tinyg.TinygFlow.SetPaused | bufferflow_tinyg.go:902-930 | the paused flag is set, and unpausing signals the given release type |
| Tinyg.TinygFlow.Pause | bufferflow_tinyg.go:673-682 | pausing only sets the flag |
| Tinyg.TinygFlow.Unpause | bufferflow_tinyg.go:684-713 | unpausing clears the flag with a type-1 release |
| Tinyg.TinygFlow.Admit | bufferflow_tinyg.go:251-280 | only a command that gets a response is queued, and the flow pauses once BufferMax bytes are outstanding |
| Tinyg.TinygFlow.BlockUntilReady | bufferflow_tinyg.go:238-316 | a paused flow drains pending releases and waits; a type-2 release returns (false, false), otherwise (true, whether the command was queued) |
| Tinyg.TinygFlow.ReleaseLock | bufferflow_tinyg.go:798-834 | the queue is emptied and a type-2 release signalled |
| Tinyg.TinygFlow.Close | bufferflow_tinyg.go:882-890 | Close is ReleaseLock followed by Unpause |
| Tinyg.TinygFlow.RetireOne | bufferflow_tinyg.go:357-481 | a response retires the oldest queued command, if any, reporting it complete |
| Tinyg.TinygFlow.ResumeIfRoom | bufferflow_tinyg.go:489-496 | a paused flow is unpaused with release type 1 when fewer than BufferMax bytes are outstanding |
| Tinyg.TinygFlow.HandleOne | bufferflow_tinyg.go:352-548 | one pass of the line loop does what the line-handling function says |
| Tinyg.TinygFlow.FeedLines | bufferflow_tinyg.go:352-549 | the loop over the complete lines does what handling them in order says |
| Tinyg.TinygFlow.OnIncomingData | bufferflow_tinyg.go:319-566 | the data is appended, the complete lines handled and the unfinished last line kept |
| Tinyg.TinygFlow.BreakApartCommands | bufferflow_tinyg.go:594-671 | the commands returned are what the two passes of the break-apart function give |
| Tinyg.TinygFlow.KeepLoop | bufferflow_tinyg.go:615-635 | the first loop keeps marked pieces, re-adds newlines to the others and drops the last plain piece |
| Tinyg.TinygFlow.RewriteLoop | bufferflow_tinyg.go:638-667 | the second loop rewrites every command in order |
| Tinyg.TinygFlow.HasSingleScan | bufferflow_tinyg.go:596-606 | the scan finds '!', '~' or '%' exactly when the command holds one |
| Tinyg.HandleLine | bufferflow_tinyg.go:352-548 | every line is echoed last with its newline back; only a response line touches the queue, the pause flag or the releases |
| Tinyg.Feed | bufferflow_tinyg.go:352-549 | the held-back text is kept and at least one echo is added per line |
| Tinyg.FirstPass | bufferflow_tinyg.go:594-636 | every command of the first pass holds '!', '~' or '%', or ends with a newline |
| Tinyg.RewriteAll | bufferflow_tinyg.go:638-667 | each command becomes one or two commands, in order |
| Tinyg.BreakApart | bufferflow_tinyg.go:594-671 | no command returned turns JSON verbosity off or echo on |
| Templates.CloseBrace | upload/upload.go:72 | the lazy "\{(.*?)\}" match ends at the first '}' unless a newline comes first |
| Templates.Tokens | upload/upload.go:72-73 | every match found is a "{...}" token with no '}' or newline inside |
| Templates.NoBraceNoTokens | upload/upload.go:72-73 | text without a '{' holds no token |
| Templates.TokenFound | programmer/programmer.go:72-73 | the first token is found after the brace-free stretch before it, and the search resumes right after it |
| Templates.ResolveLoop | upload/upload.go:75-84 | the loop over the tokens does what the token-resolution function says |
| Templates.ResolveFailsIff | programmer/programmer.go:75-82 | resolving fails exactly when the locater fails on some token |
| Templates.UnlocatedKept | upload/upload.go:81-83 | in the upload package a token the locater does not know stays in the command line |
| Templates.ErasedWhenUnlocated | programmer/programmer.go:81 | in the programmer package such a token's first occurrence is erased instead |
| Templates.StripQuotes | upload/upload.go:182-187 | every double quote is removed from the binary and, in place, from each argument |
| Templates.QuotesStripped | programmer/programmer.go:210-215 | quote stripping leaves no quote and every other character, in order |
| Upload.ProjectName | upload/upload.go:67 | the project name is the file's base name without its extension |
| Upload.PartiallyResolveCmd | upload/upload.go:65-87 | the command line after the four fixed replacements and the locater loop; it fails exactly when the locater fails on a remaining token |
| Upload.ReplaceLoneKey | upload/upload.go:66-69 | replacing a placeholder in text whose only '{' opens it replaces just that placeholder |
| Upload.ReplaceOtherKey | upload/upload.go:66-69 | a replacement leaves a different placeholder alone |
| Upload.FixupPortCmd | upload/upload.go:89-101 | the port placeholders are filled in, and the serial number only when the port enumerator lists the port |
| Upload.SerialPortSubstituted | upload/upload.go:90 | a lone "{serial.port}" becomes the port |
| Upload.SerialPortFileSubstituted | upload/upload.go:90-91 | a lone "{serial.port.file}" becomes the port's base name, untouched by the "{serial.port}" replacement before it |
| Upload.BuildPathSubstituted | upload/upload.go:66-69 | a lone "{build.path}" becomes the sketch's directory |
| Upload.PlainCommandUnchanged | upload/upload.go:65-87 | a command line without '{' resolves to itself, whatever the locater says |
| Upload.NetworkAuth | upload/upload.go:107-113 | an empty user name becomes "root" and an empty password "arduino"; anything given is kept |
| Upload.SshAddress | upload/upload.go:313-324 | ssh connects to the port's host on the given port, 22 when none is given |
| Upload.RemoteName | upload/upload.go:332-337 | each file is copied under /tmp, as sketch plus its extension or under its own name with the SSH flag |
| Upload.SshCommand | upload/upload.go:345-348 | ssh runs the given command line, or the Yun's fixed one when it is empty |
| Upload.NetworkSucceedsIff | upload/upload.go:117-125 | a network upload succeeds exactly when ssh does or, without the SSH flag, the form upload does |
| Upload.Unquoted | upload/upload.go:185-187 | each argument loses its double quotes and keeps its place |
| Upload.Serial | upload/upload.go:129-150 | a failed reset fails the upload with "Reset before upload"; a program that runs has no quotes in its binary or arguments |
| Upload.SerialUsesResetPort | upload/upload.go:134-142 | the port the reset reports is the one put into the command line |
| Programmer.ResolveCmd | programmer/programmer.go:59-85 | the command line after the fixed replacements and the locater loop; it fails exactly when the locater fails on a remaining token |
| Programmer.VerbositySubstituted | programmer/programmer.go:65-69 | a lone "{upload.verbose}" becomes the verbose or the quiet parameters, as the flag says |
| Programmer.Do | programmer/programmer.go:88-115 | a network target does nothing; a failed reset fails with "Reset before upload"; a program that runs has no quotes |
| Programmer.ResetPortUnused | programmer/programmer.go:99-114 | the port a successful reset reports does not change what runs |
| Templates.ResolveTokens | upload/upload.go:75-84 | an error is the locater error wrapped as "get location of ..." |
| Templates.TokensFailIff | upload/upload.go:75-84 | resolving the tokens found fails exactly when the locater fails on one of them |
| Upload.PartiallyResolve | upload/upload.go:65-87 | the resolution fails exactly when the locater fails on a token left after the fixed replacements |
| Programmer.Resolve | programmer/programmer.go:59-85 | the resolution fails exactly when the locater fails on a token left after the fixed replacements |
| CompilerCommand.ReplaceCharIsSwap | programmer.go:42 | replacing one character by another changes exactly those characters |
| CompilerCommand.ColonToUnderscoreSpec | programmer.go:41-44 | every ':' becomes '_', every other character stays, and the length is kept |
| CompilerCommand.FormatCmdline | programmer.go:224-246 | one round of "{key}" substitution; it reports work done exactly when the text held a '{' |
| CompilerCommand.BraceSplits | programmer.go:226-229 | splitting at '{' leaves one piece exactly when there is no '{' |
| CompilerCommand.FormattedBraceFree | programmer.go:230-245 | when no option's value holds a '{', one round leaves none |
| CompilerCommand.KeyPiece | programmer.go:232-235 | a "key}rest" piece becomes the key's value followed by rest |
| CompilerCommand.Expand | programmer.go:424-429 | a piece that settles holds no '{' |
| CompilerCommand.ExpandPiece | programmer.go:425-428 | the inner loop repeats formatCmdline until it reports nothing done |
| CompilerCommand.ExpandOneRound | programmer.go:424-429 | with brace-free option values every piece settles after one substituting round |
| CompilerCommand.ContainsStr | programmer.go:248-255 | the scan reports true exactly when the element is in the list |
| CompilerCommand.NonBlank | programmer.go:439-445 | only non-empty elements of the list are kept |
| CompilerCommand.NonBlankKeeps | programmer.go:439-445 | every non-empty element is kept as often as it occurs, and a list without blanks is unchanged |
| CompilerCommand.RemoveBlanks | programmer.go:439-445 | the loop keeps the non-empty elements in order |
| CompilerCommand.BoardFields | programmer.go:281-285 | the board name is accepted exactly when it has three ':'-separated fields, which join back to it |
| CompilerCommand.BoardLine | programmer.go:300-304 | a matching line without '=' panics on arr[1] |
| CompilerCommand.ScanBoards | programmer.go:298-305 | the scan of boards.txt collects the options the scan function says |
| CompilerCommand.NoneSticks | programmer.go:298-305 | once a boards.txt line has panicked, the later lines do not matter |
| CompilerCommand.PlatformLine | programmer.go:334-343 | a matching platform.txt line without '=' panics on arr[1] |
| CompilerCommand.ScanPlatform | programmer.go:332-344 | the scan of platform.txt collects the upload and board options the scan function says |
| CompilerCommand.PlatformNoneSticks | programmer.go:332-344 | once a platform.txt line has panicked, the later lines do not matter |
| CompilerCommand.CleanPattern | programmer.go:358-362 | the cleaned upload pattern holds no double quote |
| CompilerCommand.ToolPath | programmer.go:431-437 | the uploader's path is never empty; when the Unix name is missing it ends in ".exe" and has no '/' |
| CompilerCommand.Collect | programmer.go:281-356 | a malformed board name, a missing boards.txt or platform.txt, or a board with no options is rejected with the source's message; a matching line without '=' in either file panics; otherwise both files' options are collected and the uploader's directory recorded |
| CompilerCommand.AssembleCompilerCommand | programmer.go:276-448 | a decided scan is the outcome; otherwise the command is abandoned exactly when the 1200-bps touch cannot open the port, stops exactly when a piece does not settle, and is found with the uploader's path and the non-blank expansions of the cleaned pattern's pieces against the collected options and the port |
| CompilerCommand.ResolvedPort | programmer.go:364-416 | the touch abandons the command when the port does not open; an empty name found after the reset falls back to the given one |
| CompilerCommand.ExpandAll | programmer.go:421-429 | every piece is expanded in turn, and a settled result holds no '{' |
| CompilerCommand.ExpandNoneSticks | programmer.go:421-429 | once a piece does not settle, the whole expansion does not |
| CompilerCommand.ExpandEachSettles | programmer.go:421-429 | with brace-free option values every piece settles within one round |
| Platforms.FirstNamed | boards/platforms.go:101-105 | the position of the first tool with that name, or none when no tool has it |
| Platforms.FindOrAdd | boards/platforms.go:100-111 | the first tool with the name, or a new one appended: the old tools stay in front |
| Platforms.FindOrAddIdempotent | boards/platforms.go:100-111 | asking twice for a tool adds nothing the second time |
| Platforms.Platform.constructor | boards/boards.go:242-243 | a platform holds what platform.json describes |
| Platforms.Platform.Tool | boards/platforms.go:100-111 | the tool's position, appending it when missing, and nothing else changes |
| Platforms.Platform.ParsePlatformTXT | boards/platforms.go:114-194 | the directories are set; an unreadable file fails, otherwise every key is applied in order |
| Platforms.VersionAndName | boards/platforms.go:132-139 | "version" and "name" set the platform's fields and nothing else |
| Platforms.ToolPath | boards/platforms.go:142-156 | tools.T.path sets the path of tool T |
| Platforms.ToolPattern | boards/platforms.go:158-169 | tools.T.P.pattern sets the command of pattern P, keeping its parameters |
| Platforms.ToolParam | boards/platforms.go:171-182 | tools.T.P.params.K sets parameter K of pattern P, creating the pattern when missing, keeping its command and its other parameters |
| Platforms.ToolOption | boards/platforms.go:184-188 | any other key of three segments under tools.T is an option of T |
| Platforms.PlatformOption | boards/platforms.go:191 | any other key is an option of the platform |
| Platforms.QualifiedOverrides | boards/platforms.go:77-81 | a "pack:name" tool name overrides the package |
| Platforms.UnqualifiedKept | boards/platforms.go:77-81 | a tool name without ':' keeps the board's package |
| Platforms.LookupTool | boards/platforms.go:76-97 | the tool found belongs to an eligible platform and matches the name and package; none only when no eligible platform has one |
| Boards.Merge | boards/helpers.go:40-51 | the merged options hold the keys of both, the second's values winning |
| Boards.FirstMenu | boards/helpers.go:55-61 | the first menu key in the order visited, or none |
| Boards.FindMenu | boards/helpers.go:54-64 | the second segment of the first menu key, "cpu" when there is none, and a panic when that key is "menu" itself |
| Boards.LoneSegment | boards/helpers.go:59-60 | a menu key has a single segment exactly when it is "menu" |
| Boards.PopulateAction | boards/helpers.go:96-110 | the action is created when missing, "tool" sets its tool, and an option is written only where it was empty |
| Boards.FirstWriteWins | boards/helpers.go:107-109 | the first value written to an option stays; writing it twice changes nothing more |
| Boards.Populate | boards/helpers.go:66-94 | the board's identity and its existing variants are kept; it panics exactly for a five-segment menu key |
| Boards.Normalize | boards/helpers.go:149-164 | only a board with two variants or more gets the fixed default variant of its id |
| Boards.NormalizeIdempotent | boards/helpers.go:149-164 | normalizing twice changes nothing more |
| Boards.In | boards/helpers.go:166-175 | membership ignoring the case of ASCII letters |
| Boards.PushedKeepsAndFills | boards/boards.go:194-200 | options a variant had set stay, the default's fill the rest, and the tool is the default's |
| Boards.PushAction | boards/boards.go:195-199 | one default action pushed into a variant, option by option |
| Boards.PushDefaults | boards/boards.go:194-200 | every default action is pushed into the variant |
| Boards.Upgrade | boards/boards.go:188-202 | the variants upgraded with the common options, as the upgrade function says |
| Boards.UpgradeKeepsLoneDefault | boards/boards.go:191-192 | a board whose only variant is "default" keeps it |
| Boards.UpgradeDropsDefault | boards/boards.go:189-201 | with other variants "default" is gone and each of its actions is in every other variant |
| Boards.DiscoverAllWellFiled | boards/boards.go:154-185 | every board discovered is filed under its own fqbn |
| Boards.DiscoverFiles | boards/boards.go:163-177 | a board key files its board as pack:arch:id |
| Boards.BoardList.constructor | boards/boards.go:100-102 | a new list holds no board |
| Boards.BoardList.ByID | boards/boards.go:105-107 | a board is found exactly when its id is in the list |
| Boards.BoardList.ByVidPid | boards/boards.go:111-119 | a board listing both ids, ignoring case, and none only when no board does |
| Boards.BoardList.New | boards/boards.go:122-137 | a new board with one empty "default" variant is filed under its id |
| Boards.BoardList.ParseBoardsTXT | boards/boards.go:140-212 | an unreadable file fails with "parse properties of"; a parsed file adds its upgraded, normalized boards; otherwise nothing changes |
| Boards.DiscoverLoop | boards/boards.go:154-185 | the first loop does what the discovery function says |
| Boards.FinishAll | boards/boards.go:188-209 | the second loop finishes every board discovered |
| Boards.DiscoverNoneSticks | boards/boards.go:154-185 | once a key has panicked, the later keys do not matter |
| Boards.TokenEndSpec | boards/boards.go:324 | the lazy "{...}" match ends at the first '}', unless white space comes first |
| Boards.ActionOptionSpec | boards/boards.go:356-361 | an option found belongs to one of the variant's actions, and none only when none has it |
| Boards.TokenKeyOfWord | boards/boards.go:343-344 | a token's key is the word in its braces |
| Boards.ResolvePath | boards/boards.go:347-349 | "{path}" resolves to the tool's path |
| Boards.ResolveUnknownKept | boards/boards.go:363 | a token nothing resolves is kept as it is |
| Boards.RoundIdle | boards/boards.go:335 | a pass in which every match resolves to itself changes nothing |
| Boards.RoundNoBrace | boards/boards.go:335 | a pass over text without '{' changes nothing |
| Boards.ExpandedFixed | boards/boards.go:333-336 | an expansion that ends is a fixed point of the pass |
| Boards.ExpandedNoBrace | boards/boards.go:323-338 | a command without '{' is its own expansion |
| Boards.Expand | boards/boards.go:323-338 | "" for a pattern the tool lacks, otherwise its command expanded until a pass changes nothing |
| Boards.FirstExtFrom | boards/boards.go:289-290 | the extension is "" exactly when no match of `{build.project_name}(\.bin\|\.hex\|\.bin)` exists, else it is ".bin" or ".hex" as taken from the leftmost match |
| Boards.WindowMatches | boards/boards.go:259 | "{build", any non-newline character, "project_name}" and ".bin" or ".hex" form a match, with that extension |
| Boards.LeftmostWins | boards/boards.go:289 | the first match at or after a position decides the extension |
| Boards.FirstMatchAfterPlainText | boards/boards.go:289-290 | a command whose first match follows '{'-free text reports that match's extension, also with a character other than '.' after "{build" |
| Boards.ComputeSpecialCases | boards/boards.go:278-296 | the two debug boards' upload runs the fixed OpenOCD command, rewritten by findFiles like any other, and the M0's with the openocd tool |
| Boards.ComputeOrdinary | boards/boards.go:264-296 | any other action gets its pattern's expanded command rewritten by findFiles and the files it attaches, the extension of the leftmost match in the expanded command, the tool's version and the pattern's parameters over its own; the expansion is a fixed point of the pass, and when no file reads the command is the expansion itself |
| Boards.PopulateVariants | boards/helpers.go:112-130 | a five-segment menu key panics on parts[5]; otherwise only the variants change, the named variant exists afterwards, and a four-segment key sets its name |
| Boards.ResolveSources | boards/boards.go:340-365 | "{path}" gives the tool path, then the tool options win, and a token changes only when one of the three sources knows its key |
| Boards.ComputeAction | boards/boards.go:264-296 | an action without a tool or a pattern is left as it is; it fails only when the expansion does not end; the options are kept and the extension is "", ".bin" or ".hex" |
| PlatformFiles.PlainPrefixKept | boards/boards.go:303-321 | text holding no '{' is kept in front of the rewritten rest and attaches no file |
| PlatformFiles.BraceFreeKept | boards/boards.go:303-321 | a command without '{' is not rewritten and attaches no file |
| PlatformFiles.NothingReadsKept | boards/boards.go:307-312 | when no file reads, the command is kept and no file is attached |
| PlatformFiles.KeyPathRewritten | boards/boards.go:307-319 | {runtime.platform.path} followed by a path becomes {runtime.platform.path}/ and the base name when the file under the platform path reads, and is kept otherwise |
| PlatformFiles.KeyMatch | boards/boards.go:305 | the match is the key followed by the longest run of path characters |
| PlatformFiles.KeyFileName | boards/boards.go:308 | the file read is the platform path followed by the matched path |
| PlatformFiles.RunOfPath | boards/boards.go:305 | the greedy star takes exactly the path characters before the first other one |
| Pkgs.OfferedTools | v2/pkgs/tools.go:366-370 | exactly the tools of the packages named pack are considered |
| Pkgs.Consider | v2/pkgs/tools.go:371-384 | one tool replaces the pick only when its name matches and, for an exact version, its version too |
| Pkgs.Search | v2/pkgs/tools.go:361-386 | without a match the pick stays the zero tool; a found pick is one of the tools, with the name asked for |
| Pkgs.FindTool | v2/pkgs/tools.go:361-392 | the loops over packages and tools give the search's pick and flag, and the system is the pick's flavour |
| Pkgs.ExactFoundIff | v2/pkgs/tools.go:371-375 | for an exact version a tool is found exactly when one offered tool has that name and version |
| Pkgs.ExactLastWins | v2/pkgs/tools.go:371-375 | for an exact version the last matching tool is picked |
| Pkgs.LatestBeatsZero | v2/pkgs/tools.go:362-383 | in "latest" mode a found tool compares newer than the starting "0.0" |
| Pkgs.LatestKept | v2/pkgs/tools.go:376-383 | in "latest" mode the pick is replaced only by a tool comparing newer |
| Pkgs.RenameDropsRoot | v2/pkgs/tools.go:280-293 | an archive entry loses its root folder and is placed under the base |
| Pkgs.RenameFlat | v2/pkgs/tools.go:284-288 | an entry without a root folder is placed under the base as it is |
| Pkgs.InstalledKeys | v2/pkgs/tools.go:314-316 | the keys are the second-to-last segment and it joined to the last with "-"; a path of one segment panics |
| Pkgs.InstalledKeysOfTool | v2/pkgs/tools.go:314-316 | a tool installed at packager/name/version is recorded under name and name-version |
| Pkgs.Recorded | v2/pkgs/tools.go:310-335 | both keys map to the safely joined path; a panic or a refused join leaves the map unchanged |
| Pkgs.Tools.constructor | v2/pkgs/tools.go:73-84 | a new service holds its folder and behaviour and no installed tool |
| Pkgs.Tools.SetBehaviour | v2/pkgs/tools.go:338-340 | only the behaviour changes |
| Pkgs.Tools.WriteInstalled | v2/pkgs/tools.go:310-335 | the installed map and the result are what recording the path says |
| Pkgs.Tools.Install | v2/pkgs/tools.go:167-211 | a signed payload is installed from its own URL once verified; an unreadable index fails; a kept tool is recorded again, a found one installed and a missing one reported not found |
| Pkgs.Tools.Remove | v2/pkgs/tools.go:264-277 | the folder joined safely below the tools folder is deleted, and a refused join fails first |
| Pkgs.RemoveParentRefused | v2/pkgs/tools_test.go:155-162 | the name ".." is refused below any tools folder |
| Pkgs.RemoveRootRefused | v2/pkgs/tools_test.go:155-162 | the name "/" is refused below any tools folder |
| Pkgs.RemoveSiblingRefused | v2/pkgs/tools_test.go:155-162 | the name "../evil.txt" is refused below any tools folder |
| Download.Lcp | tools/download.go:234-242 | the longest common prefix of two strings: a prefix of both that cannot be extended |
| Download.LcpLongest | tools/download.go:234-242 | every common prefix is a prefix of it |
| Download.LastSep | tools/download.go:246-251 | the position of the last separator, or none |
| Download.Narrow | tools/download.go:234-242 | one pass of the inner loop leaves the common prefix of c and v |
| Download.CutAtLastSep | tools/download.go:246-251 | the backward loop cuts c at its last separator, if it has one |
| Download.CommonPrefix | tools/download.go:210-254 | the loops compute the common-prefix function |
| Download.FoldedPrefix | tools/download.go:229-243 | the folded prefix is a prefix of every slashed path |
| Download.FoldedLongest | tools/download.go:229-243 | and it is the longest such prefix |
| Download.CommonPrefixOfAll | tools/download.go:210-254 | for two or more paths the result is a prefix of every slashed path, and followed by the separator too when one was cut |
| Download.RemovedSpec | tools/download.go:256-263 | the list without the first occurrence of r, and unchanged when r is absent |
| Download.ShiftLeft | tools/download.go:259 | append(s[:i], s[i+1:]...) moves the tail one slot left in the shared array and keeps the last slot |
| Download.RemoveString | tools/download.go:256-263 | the first occurrence is shifted out of the backing array and the length shrinks by one; the array is untouched when r is absent |
| Download.BaseDir | tools/download.go:265-281 | the base directory is "" or ends in '/' |
| Download.FindBaseDir | tools/download.go:265-281 | the method computes the base-directory function on the entries |
| Download.DirectoryAndFile | tools/download_test.go:74 | "bin/", "bin/bossac" give "bin/" |
| Download.PaxHeaderIgnored | tools/download_test.go:85 | with "pax_global_header" first the result is the same |
| Download.UnrelatedEntry | tools/download_test.go:75 | an entry unrelated to the others leaves no common directory |
| Download.SingleEntry | tools/download_test.go:73 | a single entry gives its directory with a separator |
| Download.FindTool | tools/download.go:180-208 | the v1 search picks what the v2 search picks, without its found flag |
| Discovery.HexRoundTrip | discovery/serial.go:63-64 | the hexadecimal digits read back as the number |
| Discovery.Hex4 | discovery/serial.go:63-64 | "0x%04X" starts with "0x", reads back as the id and is six characters for a 16-bit id |
| Discovery.SerialDevice.constructor | discovery/serial.go:60-66 | a device holds the fields it is built from |
| Discovery.SerialDevice.Merge | discovery/serial.go:13-36 | every field takes the new value; it reports a change exactly when port, serial number, product or vendor id differ |
| Discovery.MergedSettles | discovery/serial.go:13-36 | merging the same device again reports no change |
| Discovery.DeviceOf | discovery/serial.go:60-66 | the device carries the port's name and serial number, and its ids read back as the port's |
| Discovery.Removals | discovery/serial.go:95-98 | one "remove" event per pruned port, in order, carrying its cached device |
| Discovery.Monitor.constructor | discovery/serial.go:54-99 | a new monitor caches no device and has emitted no event |
| Discovery.Monitor.Refresh | discovery/serial.go:67-74 | the cached device takes the new fields, and a change is reported exactly when one counted |
| Discovery.Monitor.Insert | discovery/serial.go:77-78 | a new device is cached under its port and an "add" event emitted |
| Discovery.Monitor.AddSerial | discovery/serial.go:54-79 | ports without a vendor or product id are ignored; a cached one is merged and reported only when it changed; a new one is added |
| Discovery.Monitor.Listed | discovery/serial.go:84-89 | the scan reports whether the cached port is still listed |
| Discovery.Monitor.Absent | discovery/serial.go:82-93 | the ports to prune are exactly the cached ones missing from the list, each once |
| Discovery.Monitor.Drop | discovery/serial.go:95-98 | each pruned port is reported and removed, and the rest of the cache stays |
| Discovery.Monitor.PruneSerial | discovery/serial.go:81-99 | the cache keeps exactly the listed ports, and one "remove" event is emitted per missing port |
| Updater.AddTempAppends | updater/updater_default.go:119-127 | the ".exe" branch is never taken, so every path gets "-temp" appended |
| Updater.TempRoundTrip | updater/updater_default.go:119-132 | removing the suffix undoes adding it, for a path without "-temp" |
| Updater.Start | updater/updater_default.go:66-82 | a failed copy panics; the temporary copy restarts as the real executable; the real one asks for no restart |
| Updater.StartCycle | updater/updater_default.go:66-102 | the temporary name handed back restarts as the real executable, whose own start copies it to that same name again |
| Updater.PatchURL | updater/updater_default.go:186-190 | without a DiffURL the patch fails with errDiffURLUndefined; otherwise it is fetched below DiffURL + CmdName |
| Updater.Verified | updater/updater_default.go:200-221 | a fetched binary is kept exactly when it was fetched and its hash matches |
| Updater.Update | updater/updater_default.go:256-315 | an unchanged version does nothing; anything installed goes to the temporary path, has a matching hash and is a new version |
| Updater.NoDiffURLIgnoresPatch | updater/updater_default.go:278-298 | without a DiffURL no patch is used: the full binary decides |
| Updater.PatchPreferred | updater/updater_default.go:278-298 | a verified patch wins over the full binary |
| Utilities.WithSeparator | utilities/utilities.go:125-127 | the parent gets a trailing separator only when it lacks one |
| Utilities.SafeJoin | utilities/utilities.go:123-132 | the joined path is always returned; it is accepted only when it starts with the parent and its separator, and refused with "unsafe path join" otherwise |
| Utilities.SaveFileTarget | utilities/utilities.go:51-55 | the file is created at the joined path exactly when SafeJoin accepts it, and the join's error is returned otherwise |
| Utilities.SafeJoinBelow | utilities/utilities.go:123-132 | SafeJoin accepts exactly the sub-paths whose cleaned elements lie strictly below the directory's |
| Utilities.PlainNameAccepted | utilities/utilities_test.go:13-20 | a plain file name is joined below the directory and accepted |
| Utilities.RootNameRejected | utilities/utilities_test.go:22-30 | "/" is refused |
| Utilities.ParentNameRejected | utilities/utilities_test.go:22-30 | ".." is refused |
| Utilities.ParentSlashRejected | utilities/utilities_test.go:22-30 | "../" is refused |
| Utilities.SiblingRejected | utilities/utilities_test.go:22-30 | "../name" is refused |
| Utilities.SiblingFileRejected | utilities/utilities_test.go:22-30 | "../evil.txt" is refused |
| Utilities.DeepClimbRejected | utilities/utilities_test.go:22-30 | a chain of ".." at least as long as the directory, followed by no more names than it has elements, is refused |
| Utilities.DeepTmpEvilRejected | utilities/utilities_test.go:28 | the deep "../../…/tmp/evil.txt" name is refused |
| Utf8.DecodeRune | serialport.go:118-122 | the first rune and its width: (RuneError, 0) for nothing, width 1 to 4 otherwise, the lead byte's width for a valid rune |
| Utf8.EncodeRune | serialport.go:126 | string(rune) writes one to four bytes |
| Utf8.EncodeDecoded | serialport.go:118-126 | a rune that decodes encodes back to exactly the bytes it was read from |
| Utf8.DecodeExtend | serialport.go:118 | only the decoded rune's bytes are looked at |
| Utf8.DecodeAllSplits | serialport.go:114-128 | the decoded bytes followed by the held-back bytes are the input |
| Utf8.HeldBackStuck | serialport.go:117-122 | what is held back is held back again in full |
| Utf8.PrefixBoundary | serialport.go:114-128 | a prefix of well-formed input is emitted up to a rune boundary |
| Utf8.DecodableEmitted | serialport.go:114-128 | well-formed input is emitted whole |
| Utf8.ReplacementCharHeldBack | serialport.go:119-121 | an encoded U+FFFD decodes to RuneError and is held back like an incomplete sequence |
| Utf8.IncompleteHeldBack | serialport.go:119-121 | the start of a longer sequence is held back |
| Utf8.BlockingStays | serialport.go:114-121 | once the held-back bytes start with an encoded U+FFFD or an invalid byte, nothing more is ever emitted |
| Strconv.Digits | hub.go:294 | the decimal digits have no leading zero and read back as the number |
| Strconv.Atoi | hub.go:181 | a parsed value lies in the 64-bit range and came from a non-empty string |
| Strconv.AtoiItoa | hub.go:181 | Atoi reads back what Itoa writes |
| Strconv.AtoiRejectsNonDigit | hub.go:181 | a non-digit after the sign, a trailing newline included, makes Atoi fail |
| Strconv.ItoaChars | hub.go:294 | Itoa writes only a sign and digits |
| Strconv.ItoaNoSpace | hub.go:294 | Itoa writes neither a space nor a newline |
| Updater.RemoveTempSuffix | updater/updater_default.go:130-132 | removing never lengthens the path, and a path without "-temp" is left as it is |
| Paths.Clean | utilities/utilities.go:124 | a cleaned path is never empty and is rooted exactly when the path is |
| Paths.JoinPath | utilities/utilities.go:124 | the join is empty exactly when every element is |
| Paths.Dir | updater/updater_default.go:252 | a directory is never empty and is rooted exactly when the path is |
| Paths.Base | seriallist_linux.go:16 | the base name is never empty and holds no '/' unless it is "/" |
| Paths.Ext | updater/updater_default.go:120 | the extension is empty or a dot-led, slash-free suffix of the path |
| SerialListWindows.OrDisjoint | seriallist_windows.go:226 | or-ing a number below 2^k with a multiple of 2^k adds them |
| SerialListWindows.Word | seriallist_windows.go:226 | uint16(lo) \| uint16(hi)<<8 is the little-endian reading lo + 256 * hi |
| SerialListWindows.WordRoundTrip | seriallist_windows.go:226 | the two bytes can be read back from the word: no two byte pairs give the same word |
| SerialListWindows.ConvertBytes | seriallist_windows.go:219-229 | word k of the result is bytes 2k and 2k+1 of the buffer, read little-endian |
| SerialListWindows.ComOf | seriallist_windows.go:173-174 | the name is "COM" and the text up to the first ')' |
| SerialListWindows.ComName | seriallist_windows.go:172-175 | a name without "(COM" panics; otherwise the port is "COM" and the text after the first "(COM" up to the next ')' |
| SerialListWindows.ComNameOf | seriallist_windows.go:172-175 | "<description> (COM<n>)<rest>" gives "COM<n>" |
| SerialListWindows.DigitRun | seriallist_windows.go:190 | the longest run of digits the text starts with |
| SerialListWindows.FirstMatch | seriallist_windows.go:190-196 | the leftmost position where key(\d+) matches, or none |
| SerialListWindows.Submatch | seriallist_windows.go:190-201 | the first submatch of key(\d+): found exactly when key followed by a digit occurs, and made of digits |
| SerialListWindows.SubmatchLeading | seriallist_windows.go:190-201 | a device id starting with the key and digits gives those digits |
| SerialListWindows.DeviceIds | seriallist_windows.go:181-205 | both ids get "0x" in front; with three '&'-pieces or fewer the serial number is the whole id, otherwise piece 3 |
| SerialListWindows.DeviceIdsOfComposite | seriallist_windows.go:184-205 | USB\VID_v&PID_p&a&serial&... gives serial, 0xp and 0xv |
| SerialListWindows.Entry | seriallist_windows.go:162-210 | an entry exists exactly when the name holds "(COM", with the COM name, the ids, the manufacturer and the description |
| SerialListWindows.WmiList | seriallist_windows.go:66-217 | when every name holds "(COM" entry i is built from item i; otherwise the recovered panic returns an empty list |
| SerialListWindows.FillOne | seriallist_windows.go:161-213 | one pass fills entry i from item i exactly when its name holds "(COM", touching no other entry |
| IniFlags.StripBOM | vendor/github.com/vharitonsky/iniflags/iniflags.go:220-229 | the first three bytes go exactly when they are one of the two byte-order marks |
| IniFlags.StripBOMOnce | vendor/github.com/vharitonsky/iniflags/iniflags.go:220-229 | a text behind a mark comes back whole, and only one mark goes |
| IniFlags.StripBOMPlain | vendor/github.com/vharitonsky/iniflags/iniflags.go:220-229 | a text not starting with byte 0xEF is never changed |
| IniFlags.RemoveTrailingComments | vendor/github.com/vharitonsky/iniflags/iniflags.go:468-472 | the value holds no '#' or ';', and a value without them is only trimmed |
| IniFlags.GetTrailingComment | vendor/github.com/vharitonsky/iniflags/iniflags.go:474-490 | an empty or quoted text has no comment, and a comment holds no '#' |
| IniFlags.CommentAfterHash | vendor/github.com/vharitonsky/iniflags/iniflags.go:468-490 | "value # comment" splits into the trimmed value and the comment |
| IniFlags.CommentAfterSemicolon | vendor/github.com/vharitonsky/iniflags/iniflags.go:468-490 | "value ; comment" splits likewise |
| IniFlags.NoComment | vendor/github.com/vharitonsky/iniflags/iniflags.go:474-490 | a text with neither '#' nor ';' carries no comment |
| IniFlags.QuoteValue | vendor/github.com/vharitonsky/iniflags/iniflags.go:434-442 | a value needing no quotes is kept; otherwise it is escaped and put between quotes |
| IniFlags.GoQuote | vendor/github.com/vharitonsky/iniflags/iniflags.go:463 | %q gives a text between double quotes |
| IniFlags.LastQuote | vendor/github.com/vharitonsky/iniflags/iniflags.go:452-456 | the last quote of a quoted value is never missing, so the "unclosed string" error cannot happen |
| IniFlags.UnquoteQuoted | vendor/github.com/vharitonsky/iniflags/iniflags.go:452-465 | a value opening with a quote that no other quote follows panics on v[1:0] |
| IniFlags.UnquoteValue | vendor/github.com/vharitonsky/iniflags/iniflags.go:444-466 | an empty value gives nothing; an unquoted one its comment-free text; it panics exactly on a lone opening quote |
| IniFlags.PlainRoundTrip | vendor/github.com/vharitonsky/iniflags/iniflags.go:434-466 | a value quoteValue leaves alone reads back as itself with no comment, unless it opens with a quote |
| IniFlags.QuotedRoundTrip | vendor/github.com/vharitonsky/iniflags/iniflags.go:434-466 | a quoted value of printable characters other than \ and " reads back as itself with no comment |
| IniFlags.BackslashNNotRestored | vendor/github.com/vharitonsky/iniflags/iniflags.go:438-460 | the characters \ and n do not survive quoting and unquoting: they come back as a backslash and a newline |
| IniFlags.IsHTTPFolds | vendor/github.com/vharitonsky/iniflags/iniflags.go:403-405 | lower-casing a path does not change whether it is an HTTP address |
| IniFlags.CombinePath | vendor/github.com/vharitonsky/iniflags/iniflags.go:382-401 | against an HTTP base the reference is resolved as a URL; an empty, absolute or HTTP path is kept; anything else is joined to the base's directory |
| IniFlags.CombineSibling | vendor/github.com/vharitonsky/iniflags/iniflags.go:397-400 | an import of a name from a file in the root directory names the file beside it |
| IniReader.LinesShape | vendor/github.com/vharitonsky/iniflags/iniflags.go:256-257 | every line is non-empty and holds a newline only at its end, and every line but the last ends in one |
| IniReader.LinesFlatten | vendor/github.com/vharitonsky/iniflags/iniflags.go:254-257 | reading every line gives the whole text back |
| IniReader.LineStep | vendor/github.com/vharitonsky/iniflags/iniflags.go:287-352 | a line only adds arguments; a pending comment comes from a '#' or ';' line; only a key line can stop or panic the reader |
| IniReader.Finish | vendor/github.com/vharitonsky/iniflags/iniflags.go:258-263 | at the end of the file a named multi-line argument under way joins the arguments |
| IniReader.ArgsOf | vendor/github.com/vharitonsky/iniflags/iniflags.go:235-247 | a path on the import stack fails; a missing file gives no arguments, accepted only when missing files are allowed; a failure carries no arguments |
| IniReader.ScanLines | vendor/github.com/vharitonsky/iniflags/iniflags.go:254-355 | a failure carries no arguments, and success only adds to those collected so far |
| IniReader.ParseLine | vendor/github.com/vharitonsky/iniflags/iniflags.go:287-352 | one pass of the loop for a line that is not an import does what the line-step function says |
| IniReader.Loader.constructor | vendor/github.com/vharitonsky/iniflags/iniflags.go:202-210 | a new reader has an empty import stack |
| IniReader.Loader.CheckImportRecursion | vendor/github.com/vharitonsky/iniflags/iniflags.go:202-210 | the check passes exactly when the path is not on the import stack |
| IniReader.Loader.GetArgsFromConfig | vendor/github.com/vharitonsky/iniflags/iniflags.go:235-356 | the result is the reader function's, and the import stack is restored however the reading ends |
| IniReader.Loader.ReadLines | vendor/github.com/vharitonsky/iniflags/iniflags.go:249-355 | the loop over the lines of an opened file, imports included, gives the line scan's result |
| IniReader.WordValue | vendor/github.com/vharitonsky/iniflags/iniflags.go:444-451 | an unquoted word is its own value, with no comment |
| IniReader.SplitKeyValue | vendor/github.com/vharitonsky/iniflags/iniflags.go:296 | "key=value" splits at its first '=' |
| IniReader.LastBrace | vendor/github.com/vharitonsky/iniflags/iniflags.go:332 | the last '{' of "name{delimiter}" is the one after the name |
| IniReader.MultiLineStep | vendor/github.com/vharitonsky/iniflags/iniflags.go:331-352 | "k{d}=v" starts argument k when none is under way, appends d and v when k is under way, and otherwise closes the one under way and starts k |
| IniReader.PlainLineStep | vendor/github.com/vharitonsky/iniflags/iniflags.go:311-328 | "k=v" closes a named multi-line argument under way and is an argument of its own carrying the pending comment |
| IniReader.MultiLineAccumulates | vendor/github.com/vharitonsky/iniflags/iniflags.go:331-352 | "k{d}=v1" then "k{d}=v2" at the end of a file give one argument k whose value is v1, d and v2 joined |
| IniReader.CommentAttaches | vendor/github.com/vharitonsky/iniflags/iniflags.go:291-319 | a comment line is the comment of the argument on the next line |
| IniReader.ImportTarget | vendor/github.com/vharitonsky/iniflags/iniflags.go:272-273 | "#import f" names f |
| IniReader.SelfImportFails | vendor/github.com/vharitonsky/iniflags/iniflags.go:236-282 | a file whose first line imports itself is an import cycle and fails, whatever follows |
| IniReader.ArgStep | vendor/github.com/vharitonsky/iniflags/iniflags.go:311-352 | an argument line never panics, only adds to the arguments and consumes the pending comment |
| IniReader.ImportOf | vendor/github.com/vharitonsky/iniflags/iniflags.go:272-282 | a failed import carries no arguments |
| IniFlags.Escape | vendor/github.com/vharitonsky/iniflags/iniflags.go:438-440 | escaping never shortens the value and leaves no newline in it |
| IniFlags.Unescape | vendor/github.com/vharitonsky/iniflags/iniflags.go:458-460 | unescaping never lengthens the value |
| WagnerFischer.LowerCost | vendor/github.com/xrash/smetrics/wagner-fischer.go:13-20 | the cost charged along the table's edges is the least of the three costs |
| WagnerFischer.Pick | vendor/github.com/xrash/smetrics/wagner-fischer.go:41-51 | a mismatching cell takes the cheapest of insertion, deletion and substitution, ties going to substitution, then to deletion |
| WagnerFischer.Distance | vendor/github.com/xrash/smetrics/wagner-fischer.go:3-63 | against an empty string the distance is the other length times the least cost |
| WagnerFischer.Compute | vendor/github.com/xrash/smetrics/wagner-fischer.go:3-63 | the two-row loop, with the strings swapped so the shorter spans the columns, returns the last cell of the full table |
| WagnerFischer.FillRow | vendor/github.com/xrash/smetrics/wagner-fischer.go:34-53 | one pass of the column loop turns row i - 1 into row i of the table |
| WagnerFischer.SameStringZero | vendor/github.com/xrash/smetrics/wagner-fischer.go:3-63 | a string is at distance 0 from itself, whatever the costs |
| WagnerFischer.CellNonNegative | vendor/github.com/xrash/smetrics/wagner-fischer.go:28-53 | with non-negative costs no cell of the table is negative |
| WagnerFischer.CellIsLev | vendor/github.com/xrash/smetrics/wagner-fischer.go:28-53 | under unit costs each cell is the Levenshtein distance of the two prefixes it stands for |
| WagnerFischer.UnitCostIsLevenshtein | vendor/github.com/xrash/smetrics/wagner-fischer.go:3-63 | with every cost 1 the result is the byte-level Levenshtein distance, an independent recursive definition |
| WagnerFischer.LevSymmetric | vendor/github.com/xrash/smetrics/wagner-fischer.go:6-11 | the unit-cost distance does not depend on which string is first, so the swap changes nothing |
| WagnerFischer.LevBounds | vendor/github.com/xrash/smetrics/wagner-fischer.go:3-63 | under unit costs the distance lies between the length difference and the longer length |
| Differ.Occurrences | programmer/utils.go:4-21 | the count of a value is its multiplicity in the list |
| Differ.Candidates | programmer/utils.go:4-21 | a name's count is 1 exactly when it is in the first list and not the second, or not in the first and once in the second |
| Differ.Compute | upload/utils.go:42-59 | the result is a name whose count is 1, or "" only when there is none |
| Differ.TestedCases | programmer/utils_test.go:8-16 | no name from two empty lists, and the added port whichever list holds it |
| WagnerFischer.DiagonalZero | vendor/github.com/xrash/smetrics/wagner-fischer.go:37-50 | the diagonal of a string against itself is zero, each cell copying its matching neighbour |
| Differ.CountsMeaning | programmer/utils.go:7-13 | every value of either list is counted; a value of the first list once however often it occurs there, plus its occurrences in the second |

## Left out

- serialPortList.List and runSerialDiscovery: the JSON encoding of the list and the pluggable-discovery loop are I/O. The list's operations are modelled.
- discovery/serial.go serialDiscover: the polling loop over the operating system's enumerator is I/O. The merge, add and prune steps are modelled.
- hub.run: the select loop over channels is left out. Its register, unregister and broadcast cases are modelled as methods.
- logAction, memoryStats, getHostname, getVersion and garbageCollection: they only report runtime or host facts. Their verbs are modelled as dispatch outcomes.
- Grbl rptQueryLoop, the query ticker stopped by Close, GetPaused and IsBufferGloballySendingBack: timers and trivial getters.
- Tinyg rxQueryLoop, GetPaused and IsBufferGloballySendingBack: timers and trivial getters.
- Tinyg ClearOutSemaphore: it is folded into the BlockUntilReady model.
- updateSerialPortList and spList are not part of this model. When a port closes, their re-listing and broadcast appear as the message PortListRefreshed in the port's messages; the list they send is not modelled.
- Grbl.Wipe: the drain of sendBuffered takes that channel to be empty, so items still pending in it are not subtracted from itemsInBuffer. The sender on sendBuffered (the port's Write) is not part of this model.
- The debug JSON that TinyG's OnIncomingData emits (bufFlowDebugType) is not modelled, because it is logging only.
- iniflags ReadIniFile is not modelled separately, because it only calls getArgsFromConfig.
- iniflags openConfigFile: fetching over HTTP is I/O. Files are a map from path to contents.
- IniReader.Loader.ReadLines: a read error other than end of file (iniflags.go:257-266 logs it and fails) is not modelled. An opened file is its contents in the map of files, so every read succeeds until the end of the file.
- IniFlags.GoQuote: the `%q` escaping of non-ASCII and non-printable characters is left out. Values are assumed printable ASCII.
- The iniflags runtime is left out: Parse, the flag set, SIGHUP, the update loop, OnFlagChange and the Set* functions. These are process and flag-package plumbing.
- seriallist_windows.go: the WaitGroup in getList, associateVidPidWithPort's registry walk, getListSynchronously and tellCommandNotToSpawnShell are I/O against WMI and the registry.
- The Tools Len, Less and Swap sort helpers are left out, because they only feed sort.Sort.
- boards Find is a directory walk and is I/O. Compute's work on one action is Boards.ComputeAction.
- Boards.ComputeAction: findFiles is modelled by PlatformFiles.Rewritten and PlatformFiles.Attached. Whether a file reads is a parameter. The files' contents are not modelled, only their names.
- Boards.ComputeAction: the board's platform is taken to exist. For a board whose platform is missing, Go dereferences a nil pointer once the command has a match, and that panic is not modelled.
- Boards.ActionOption: one order of the actions stands for every lookup. Go's map iteration may visit the actions in a different order at each lookup.
- GoStrings.TrimSpace trims ASCII white space only. Go's strings.TrimSpace also trims Unicode spaces such as U+0085, U+00A0 and U+2000 to U+200A, which are several bytes long here.
- Messages to the hub and the bufferflows' output are values. Their JSON and `%q` encoding is not modelled, so the replacement of invalid UTF-8 by U+FFFD on encoding is not modelled either.
- SerialPort.Step: the clock of the fast empty-read check is a flag on each read (`quick`), not a time.
- Tinyg.TinygFlow: the release semaphore is an unbounded list. Go's channel holds 1000 signals, and a sender that finds it full blocks. That blocking is not modelled.
- Tinyg.TinygFlow.BlockUntilReady and Grbl.GrblFlow.BlockUntilReady: the wait on the semaphore is not modelled as blocking. The drain of pending signals empties the list at once, and the signal that ends the wait is a parameter (`unblock`).
- programmer reset, waitReset and the serial I/O are left out. Whether the port reopens is a parameter.
- upload: the form, scp and ssh network I/O, Kill and the Busy flag are left out. Only the command resolution and its outcomes are modelled.
- updater: fetching, gzip, bsdiff and the sha check are I/O. Their outcomes are parameters.
- v2 pkgs: Available, Installed, readInstalled and the actual download of Install are I/O.
- computeMd5 and pipe_commands run external processes or hash files, so they are left out.
- CompilerCommand.Expand: formatCmdline's fixpoint loop runs under a fuel bound. A template that keeps expanding past the fuel is not modelled.
- Boards.Expanded: the same applies to the fixpoint of boards' expand.
- SerialListWindows.ConvertBytes requires an even length no longer than the buffer, because the source panics otherwise.
- Unicode case folding is not modelled, because ToLower and EqualFold are ASCII-only here.
- Strings are byte sequences, one char per byte.
