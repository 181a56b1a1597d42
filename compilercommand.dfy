// The string logic of the agent's own programmer (programmer.go): the
// board's options read from boards.txt and platform.txt, the "{key}"
// expansion formatCmdline applies until nothing is left to expand, the
// uploader's argument list, and the helpers beside them. The files, the
// serial port used for the 1200-bps touch and the executable's location
// are parameters.
module CompilerCommand {
  import opened Wrappers
  import opened GoStrings
  import opened Paths

  // ---------------------------------------------------------------------
  // colonToUnderscore

  // Every occurrence of one character turned into another.
  function SwapChar(s: string, c: char, d: char): (r: string)
    ensures |r| == |s|
    ensures forall i :: 0 <= i < |s| ==> r[i] == (if s[i] == c then d else s[i])
    decreases |s|
  {
    if s == [] then []
    else [if s[0] == c then d else s[0]] + SwapChar(s[1..], c, d)
  }

  // How a one-character split proceeds from the first character.
  lemma SplitCharCons(s: string, c: char)
    requires s != []
    ensures s[0] == c ==> Split(s, [c]) == [""] + Split(s[1..], [c])
    ensures s[0] != c ==> var tail := Split(s[1..], [c]);
      Split(s, [c]) == [[s[0]] + tail[0]] + tail[1..]
  {
    var tail := Split(s[1..], [c]);
    if s[0] == c {
      assert OccursAt(s, [c], 0);
      assert s[1..] == s[0 + |[c]|..];
    } else {
      assert !OccursAt(s, [c], 0);
      match Index(s[1..], [c])
      case None =>
        assert Index(s, [c]).None?;
        assert s == [s[0]] + s[1..];
      case Some(k) =>
        OccursShift(s, [c], k);
        assert Index(s, [c]) == Some(k + 1);
        assert s[..k + 1] == [s[0]] + s[1..][..k];
        assert s[k + 1 + 1..] == s[1..][k + 1..];
    }
  }

  // Joining after gluing one character to the first piece.
  lemma JoinGlued(x: char, tail: seq<string>, sep: string)
    requires |tail| >= 1
    ensures Join([[x] + tail[0]] + tail[1..], sep) == [x] + Join(tail, sep)
  {
    if |tail| > 1 {
      JoinCons([x] + tail[0], tail[1..], sep);
      JoinCons(tail[0], tail[1..], sep);
      assert tail == [tail[0]] + tail[1..];
    }
  }

  // strings.Replace with a one-character pattern and a one-character
  // replacement changes those characters and nothing else.
  lemma {:induction false} ReplaceCharIsSwap(s: string, c: char, d: char)
    ensures ReplaceAll(s, [c], [d]) == SwapChar(s, c, d)
    decreases |s|
  {
    if s == [] {
      assert Split(s, [c]) == [s];
    } else {
      ReplaceCharIsSwap(s[1..], c, d);
      SplitCharCons(s, c);
      var tail := Split(s[1..], [c]);
      if s[0] == c {
        JoinCons("", tail, [d]);
      } else {
        JoinGlued(s[0], tail, [d]);
      }
    }
  }

  function ColonToUnderscore(input: string): string
  {
    ReplaceAll(input, ":", "_")
  }

  lemma ColonToUnderscoreSpec(input: string)
    ensures |ColonToUnderscore(input)| == |input|
    ensures ':' !in ColonToUnderscore(input)
    ensures forall i :: 0 <= i < |input| && input[i] != ':' ==> ColonToUnderscore(input)[i] == input[i]
    ensures forall i :: 0 <= i < |input| && input[i] == ':' ==> ColonToUnderscore(input)[i] == '_'
  {
    ReplaceCharIsSwap(input, ':', '_');
  }

  // ---------------------------------------------------------------------
  // formatCmdline

  // A missing key reads as "", as a Go map lookup does.
  function Lookup(opts: map<string, string>, key: string): string
  {
    if key in opts then opts[key] else ""
  }

  // One piece between two '{': "key}rest" becomes the key's value then
  // rest; any other piece becomes the value of its text before the first
  // '}' when that value is not empty, and that text otherwise (a piece
  // with two or more '}' loses what follows the first).
  function FormatPiece(item: string, opts: map<string, string>): string
  {
    var itemS := Split(item, "}");
    var value := Lookup(opts, itemS[0]);
    if |itemS| == 2 then value + itemS[1]
    else if value != "" then value
    else itemS[0]
  }

  function FormatPieces(list: seq<string>, opts: map<string, string>): string
    decreases |list|
  {
    if list == [] then ""
    else FormatPieces(list[..|list| - 1], opts) + FormatPiece(list[|list| - 1], opts)
  }

  // formatCmdline: the text unchanged and false when it holds no '{';
  // otherwise every piece between '{'s formatted, and true.
  function Formatted(cmdline: string, opts: map<string, string>): (string, bool)
  {
    var list := Split(cmdline, "{");
    if |list| == 1 then (cmdline, false)
    else (FormatPieces(list, opts), true)
  }

  method FormatCmdline(cmdline0: string, opts: map<string, string>) returns (cmdline: string, winded: bool)
    ensures (cmdline, winded) == Formatted(cmdline0, opts)
    ensures !winded <==> '{' !in cmdline0
  {
    var list := Split(cmdline0, "{");
    BraceSplits(cmdline0);
    if |list| == 1 {
      return cmdline0, false;
    }
    cmdline := "";
    var i := 0;
    while i < |list|
      invariant 0 <= i <= |list|
      invariant cmdline == FormatPieces(list[..i], opts)
    {
      FormatPiecesStep(list, i, opts);
      cmdline := cmdline + FormatPiece(list[i], opts);
      i := i + 1;
    }
    assert list[..i] == list;
    winded := true;
  }

  lemma FormatPiecesStep(list: seq<string>, i: nat, opts: map<string, string>)
    requires i < |list|
    ensures FormatPieces(list[..i + 1], opts) == FormatPieces(list[..i], opts) + FormatPiece(list[i], opts)
  {
    assert list[..i + 1][..i] == list[..i];
  }

  // A string is cut by '{' exactly when it holds one.
  lemma BraceSplits(s: string)
    ensures |Split(s, "{")| == 1 <==> '{' !in s
  {
    if '{' in s {
      var i :| 0 <= i < |s| && s[i] == '{';
      OccursChar(s, '{', i);
    } else {
      SplitFree(s, '{');
    }
  }

  // Every piece of a split is made of characters of the string.
  lemma {:induction false} SplitPieceChars(s: string, sep: string)
    requires |sep| > 0
    ensures forall k, x :: 0 <= k < |Split(s, sep)| && x in Split(s, sep)[k] ==> x in s
    decreases |s|
  {
    match Index(s, sep)
    case None =>
    case Some(i) =>
      SplitPieceChars(s[i + |sep|..], sep);
      forall k, x | 0 <= k < |Split(s, sep)| && x in Split(s, sep)[k]
        ensures x in s
      {
        if k > 0 {
          assert Split(s, sep)[k] == Split(s[i + |sep|..], sep)[k - 1];
          assert x in s[i + |sep|..];
        } else {
          assert x in s[..i];
        }
      }
  }

  predicate ValuesBraceFree(opts: map<string, string>)
  {
    forall k :: k in opts ==> '{' !in opts[k]
  }

  lemma FormatPieceBraceFree(item: string, opts: map<string, string>)
    requires '{' !in item && ValuesBraceFree(opts)
    ensures '{' !in FormatPiece(item, opts)
  {
    SplitPieceChars(item, "}");
  }

  lemma {:induction false} FormatPiecesBraceFree(list: seq<string>, opts: map<string, string>)
    requires forall k :: 0 <= k < |list| ==> '{' !in list[k]
    requires ValuesBraceFree(opts)
    ensures '{' !in FormatPieces(list, opts)
    decreases |list|
  {
    if list != [] {
      FormatPiecesBraceFree(list[..|list| - 1], opts);
      FormatPieceBraceFree(list[|list| - 1], opts);
    }
  }

  // When no option's value holds a '{', one round leaves none.
  lemma FormattedBraceFree(cmdline: string, opts: map<string, string>)
    requires ValuesBraceFree(opts)
    ensures '{' !in Formatted(cmdline, opts).0
  {
    var list := Split(cmdline, "{");
    BraceSplits(cmdline);
    SplitPiecesFree(cmdline, "{");
    forall k | 0 <= k < |list|
      ensures '{' !in list[k]
    {
      NotContainsChar(list[k], '{');
    }
    FormatPiecesBraceFree(list, opts);
  }

  // A "key}rest" piece becomes the key's value followed by rest.
  lemma KeyPiece(key: string, rest: string, opts: map<string, string>)
    requires '}' !in key && '}' !in rest
    ensures FormatPiece(key + "}" + rest, opts) == Lookup(opts, key) + rest
  {
    SplitWords2(key, rest, '}');
  }

  // The loop of assembleCompilerCommand that formats one piece until
  // formatCmdline reports nothing done. The source has no bound; `fuel`
  // rounds are modelled, and None stands for a piece still holding a '{'
  // when they run out.
  function Expand(piece: string, opts: map<string, string>, fuel: nat): (r: Option<string>)
    ensures r.Some? ==> '{' !in r.value
    decreases fuel
  {
    var (next, winded) := Formatted(piece, opts);
    BraceSplits(piece);
    if !winded then Some(piece)
    else if fuel == 0 then None
    else Expand(next, opts, fuel - 1)
  }

  method ExpandPiece(piece: string, opts: map<string, string>, fuel: nat) returns (r: Option<string>)
    ensures r == Expand(piece, opts, fuel)
  {
    var s := piece;
    var winded := true;
    var f := fuel;
    while winded
      invariant Expand(piece, opts, fuel) == (if winded then Expand(s, opts, f) else Some(s))
      decreases f, winded
    {
      var next, w := FormatCmdline(s, opts);
      ExpandStep(s, opts, f);
      if !w {
        winded := false;
      } else if f == 0 {
        return None;
      } else {
        s, f := next, f - 1;
      }
    }
    return Some(s);
  }

  lemma ExpandStep(s: string, opts: map<string, string>, f: nat)
    ensures var (next, w) := Formatted(s, opts);
      Expand(s, opts, f) == (if !w then Some(s) else if f == 0 then None else Expand(next, opts, f - 1))
  {
  }

  // With brace-free values a single substituting round suffices.
  lemma ExpandOneRound(piece: string, opts: map<string, string>)
    requires ValuesBraceFree(opts)
    ensures Expand(piece, opts, 1).Some?
  {
    FormattedBraceFree(piece, opts);
    BraceSplits(Formatted(piece, opts).0);
  }

  // ---------------------------------------------------------------------
  // containsStr and the blank-free argument list

  method ContainsStr(s: seq<string>, e: string) returns (found: bool)
    ensures found <==> e in s
  {
    var i := 0;
    while i < |s|
      invariant 0 <= i <= |s|
      invariant e !in s[..i]
    {
      if s[i] == e {
        return true;
      }
      assert s[..i + 1] == s[..i] + [s[i]];
      i := i + 1;
    }
    assert s[..i] == s;
    return false;
  }

  function NonBlank(xs: seq<string>): (r: seq<string>)
    ensures forall k :: 0 <= k < |r| ==> r[k] != "" && r[k] in xs
    ensures |r| <= |xs|
    decreases |xs|
  {
    if xs == [] then []
    else
      var r := NonBlank(xs[..|xs| - 1]);
      if xs[|xs| - 1] == "" then r else r + [xs[|xs| - 1]]
  }

  // NonBlank keeps every non-empty element, in order.
  lemma {:induction false} NonBlankKeeps(xs: seq<string>)
    ensures forall x :: x != "" ==> multiset(NonBlank(xs))[x] == multiset(xs)[x]
    ensures "" !in xs ==> NonBlank(xs) == xs
    decreases |xs|
  {
    if xs != [] {
      var init, last := xs[..|xs| - 1], xs[|xs| - 1];
      NonBlankKeeps(init);
      assert xs == init + [last];
      assert multiset(xs) == multiset(init) + multiset{last};
      if last != "" {
        assert multiset(NonBlank(xs)) == multiset(NonBlank(init)) + multiset{last};
      }
    }
  }

  method RemoveBlanks(cmdlineSlice: seq<string>) returns (out: seq<string>)
    ensures out == NonBlank(cmdlineSlice)
  {
    out := [];
    var i := 0;
    while i < |cmdlineSlice|
      invariant 0 <= i <= |cmdlineSlice|
      invariant out == NonBlank(cmdlineSlice[..i])
    {
      assert cmdlineSlice[..i + 1][..i] == cmdlineSlice[..i];
      if cmdlineSlice[i] != "" {
        out := out + [cmdlineSlice[i]];
      }
      i := i + 1;
    }
    assert cmdlineSlice[..i] == cmdlineSlice;
  }

  // ---------------------------------------------------------------------
  // assembleCompilerCommand

  const FormatMsg: string := "Board need to be specified in core:architecture:name format"

  // The board name's three fields, core:architecture:name.
  function BoardFields(boardname: string): (r: Result<seq<string>>)
    ensures r.Ok? <==> |Split(boardname, ":")| == 3
    ensures r.Ok? ==> |r.value| == 3 && Join(r.value, ":") == boardname
    ensures r.Err? ==> r.msg == FormatMsg
  {
    var fields := Split(boardname, ":");
    JoinSplit(boardname, ":");
    if |fields| != 3 then Err(FormatMsg)
    else Ok(fields)
  }

  // One line of boards.txt mentioning the board: the key (with the first
  // "name." removed) and the text between the first and second '='. A
  // line without '=' makes arr[1] panic (None).
  function BoardLine(line: string, name: string): (r: Option<(string, string)>)
    ensures r.None? <==> '=' !in line
  {
    var arr := Split(line, "=");
    BraceLike(line, '=');
    if |arr| < 2 then None
    else Some((ReplaceFirst(arr[0], name + ".", ""), arr[1]))
  }

  lemma BraceLike(s: string, c: char)
    ensures |Split(s, [c])| == 1 <==> c !in s
  {
    if c in s {
      var i :| 0 <= i < |s| && s[i] == c;
      OccursChar(s, c, i);
    } else {
      SplitFree(s, c);
    }
  }

  // The boards.txt scan: the options of every line holding the board's
  // name, later lines overriding earlier ones; None when some such line
  // has no '='.
  function BoardOptions(lines: seq<string>, name: string): Option<map<string, string>>
    decreases |lines|
  {
    if lines == [] then Some(map[])
    else match BoardOptions(lines[..|lines| - 1], name)
      case None => None
      case Some(m) =>
        var line := lines[|lines| - 1];
        if !Contains(line, name) then Some(m)
        else match BoardLine(line, name)
          case None => None
          case Some(kv) => Some(m[kv.0 := kv.1])
  }

  method ScanBoards(lines: seq<string>, name: string) returns (r: Option<map<string, string>>)
    ensures r == BoardOptions(lines, name)
  {
    var m: map<string, string> := map[];
    var i := 0;
    while i < |lines|
      invariant 0 <= i <= |lines|
      invariant BoardOptions(lines[..i], name) == Some(m)
    {
      assert lines[..i + 1][..i] == lines[..i];
      var line := lines[i];
      if Contains(line, name) {
        var kv := BoardLine(line, name);
        if kv.None? {
          assert BoardOptions(lines[..i + 1], name) == None;
          NoneSticks(lines, name, i + 1);
          return None;
        }
        m := m[kv.value.0 := kv.value.1];
      }
      i := i + 1;
    }
    assert lines[..i] == lines;
    return Some(m);
  }

  // Once the scan has panicked, later lines do not matter.
  lemma {:induction false} NoneSticks(lines: seq<string>, name: string, i: nat)
    requires i <= |lines| && BoardOptions(lines[..i], name) == None
    ensures BoardOptions(lines, name) == None
    decreases |lines| - i
  {
    if i < |lines| {
      assert lines[..i + 1][..i] == lines[..i];
      NoneSticks(lines, name, i + 1);
    } else {
      assert lines[..i] == lines;
    }
  }

  // One line of platform.txt mentioning the tool: the whole key into the
  // upload options, the key without its first "tools.<tool>." into the
  // board options, the value joined back with its second '=' (a third is
  // lost).
  function PlatformLine(line: string, tool: string): (r: Option<(string, string, string)>)
    ensures r.None? <==> '=' !in line
  {
    var arr := Split(line, "=");
    BraceLike(line, '=');
    if |arr| < 2 then None
    else Some((arr[0], ReplaceFirst(arr[0], "tools." + tool + ".", ""), if |arr| > 2 then arr[1] + "=" + arr[2] else arr[1]))
  }

  // The platform.txt scan: both maps, or None when a line that mentions
  // the tool has no '='.
  function PlatformOptions(lines: seq<string>, tool: string, board: map<string, string>): Option<(map<string, string>, map<string, string>)>
    decreases |lines|
  {
    if lines == [] then Some((board, map[]))
    else match PlatformOptions(lines[..|lines| - 1], tool, board)
      case None => None
      case Some(maps) =>
        var line := lines[|lines| - 1];
        if !Contains(line, tool) then Some(maps)
        else match PlatformLine(line, tool)
          case None => None
          case Some(t) => Some((maps.0[t.1 := t.2], maps.1[t.0 := Split(line, "=")[1]]))
  }

  method ScanPlatform(lines: seq<string>, tool: string, board: map<string, string>)
      returns (r: Option<(map<string, string>, map<string, string>)>)
    ensures r == PlatformOptions(lines, tool, board)
  {
    var boardOptions := board;
    var uploadOptions: map<string, string> := map[];
    var i := 0;
    while i < |lines|
      invariant 0 <= i <= |lines|
      invariant PlatformOptions(lines[..i], tool, board) == Some((boardOptions, uploadOptions))
    {
      assert lines[..i + 1][..i] == lines[..i];
      var line := lines[i];
      if Contains(line, tool) {
        var t := PlatformLine(line, tool);
        if t.None? {
          PlatformNoneSticks(lines, tool, board, i + 1);
          return None;
        }
        uploadOptions := uploadOptions[t.value.0 := Split(line, "=")[1]];
        boardOptions := boardOptions[t.value.1 := t.value.2];
      }
      i := i + 1;
    }
    assert lines[..i] == lines;
    return Some((boardOptions, uploadOptions));
  }

  lemma {:induction false} PlatformNoneSticks(lines: seq<string>, tool: string, board: map<string, string>, i: nat)
    requires i <= |lines| && PlatformOptions(lines[..i], tool, board) == None
    ensures PlatformOptions(lines, tool, board) == None
    decreases |lines| - i
  {
    if i < |lines| {
      assert lines[..i + 1][..i] == lines[..i];
      PlatformNoneSticks(lines, tool, board, i + 1);
    } else {
      assert lines[..i] == lines;
    }
  }

  // The pattern's clean-up: the first "{cmd.path}" and "{path}/{cmd}" in
  // quotes become a space each, then every quote goes.
  function CleanPattern(pattern: string): (r: string)
    ensures '"' !in r
  {
    var c1 := ReplaceFirst(pattern, "\"{cmd.path}\"", " ");
    var c2 := ReplaceFirst(c1, "\"{path}/{cmd}\"", " ");
    RemoveChar(c2, '"')
  }

  // The uploader's path; when it does not exist (Windows) ".exe" is added
  // and every '/' turned into '\'.
  function ToolPath(execDir: string, core: string, tool: string, exists_: bool): (r: string)
    ensures r != ""
    ensures !exists_ ==> '/' !in r && HasSuffix(r, ".exe")
  {
    var t := execDir + "/" + core + "/tools/" + tool + "/bin/" + tool;
    if exists_ then t
    else
      var w := t + ".exe";
      ReplaceCharIsSwap(w, '/', '\\');
      assert SwapChar(w, '/', '\\')[|w| - 4..] == w[|w| - 4..];
      SwapChar(w, '/', '\\')
  }

  // The outcome: rejected with the message broadcast, abandoned when the
  // port does not open at 1200 bps (the error is only logged), a panic (a
  // matching line without '='), a piece still holding a '{' after the
  // modelled rounds, or the uploader and its arguments.
  datatype Assembled = Rejected(msg: string) | PortUnavailable | Panics | Unexpanded | Found(tool: string, args: seq<string>)

  // What the two file scans leave: an outcome already decided, or the
  // options collected, the uploader's name and the core it belongs to.
  datatype Stage = Decided(r: Assembled) | Collected(opts: map<string, string>, tool: string, core: string)

  const ToolKey: string := "upload.tool"
  const PatternKey: string := "upload.pattern"
  const TouchKey: string := "upload.use_1200bps_touch"
  const WaitKey: string := "upload.wait_for_upload_port"
  const NoBoardHead: string := "Could not find board: "

  function NotPartOf(fields: seq<string>): string
    requires |fields| == 3
  {
    "Board " + fields[2] + " is not part of " + fields[0] + ":" + fields[1]
  }

  // The sketch's build directory and its name without the extension.
  function WithFile(b: map<string, string>, filePath: string): (r: map<string, string>)
    ensures r.Keys == b.Keys + {"build.path", "build.project_name"}
  {
    var file := TrimLeftSet(TrimRightSet(filePath, {'\n'}), {'\n'});
    b["build.path" := Dir(file)]["build.project_name" := TrimSuffix(Base(file), Ext(Base(file)))]
  }

  // The uploader's directory, named by the version platform.txt gives.
  function WithToolPath(b: map<string, string>, upload: map<string, string>, execDir: string, core: string, tool: string): map<string, string>
  {
    var version := Lookup(upload, "runtime.tools." + tool + ".version");
    b["runtime.tools." + tool + ".path" := execDir + "/" + core + "/tools/" + tool + "/" + version]
  }

  function WithPort(b: map<string, string>, port: string): map<string, string>
  {
    b["serial.port" := port]["serial.port.file" := Base(port)]
  }

  // The board's fields, then boards.txt, then platform.txt: a malformed
  // name, a missing file or an unknown board is rejected with its
  // message, a matching line without '=' panics, and otherwise the
  // options of both files are collected.
  function Collect(boardname: string, filePath: string, execDir: string,
                   boardsTxt: Option<seq<string>>, platformTxt: Option<seq<string>>): (s: Stage)
    ensures BoardFields(boardname).Err? ==> s == Decided(Rejected(BoardFields(boardname).msg))
    ensures BoardFields(boardname).Ok? && boardsTxt.None? ==> s == Decided(Rejected(NoBoardHead + boardname))
    ensures BoardFields(boardname).Ok? && boardsTxt.Some? ==>
      var f := BoardFields(boardname).value;
      var b := BoardOptions(boardsTxt.value, f[2]);
      (b.None? ==> s == Decided(Panics)) &&
      (b == Some(map[]) ==> s == Decided(Rejected(NotPartOf(f)))) &&
      (b.Some? && b.value != map[] && platformTxt.None? ==> s == Decided(Rejected(NoBoardHead + boardname))) &&
      (b.Some? && b.value != map[] && platformTxt.Some? ==>
        var w := WithFile(b.value, filePath);
        (s == Decided(Panics) <==> PlatformOptions(platformTxt.value, Lookup(w, ToolKey), w).None?))
    ensures s.Collected? ==> BoardFields(boardname).Ok? && s.core == BoardFields(boardname).value[0]
    ensures s.Collected? ==> "runtime.tools." + s.tool + ".path" in s.opts
  {
    match BoardFields(boardname)
    case Err(m) => Decided(Rejected(m))
    case Ok(f) =>
      if boardsTxt.None? then Decided(Rejected(NoBoardHead + boardname))
      else match BoardOptions(boardsTxt.value, f[2])
        case None => Decided(Panics)
        case Some(b) =>
          if |b| == 0 then Decided(Rejected(NotPartOf(f)))
          else if platformTxt.None? then Decided(Rejected(NoBoardHead + boardname))
          else
            var w := WithFile(b, filePath);
            var tool := Lookup(w, ToolKey);
            match PlatformOptions(platformTxt.value, tool, w)
            case None => Decided(Panics)
            case Some(maps) => Collected(WithToolPath(maps.0, maps.1, execDir, f[0], tool), tool, f[0])
  }

  // The files and the port are parameters: the lines of boards.txt and
  // platform.txt (None when a file cannot be opened), whether the port
  // opened at 1200 bps, the name findNewPortName settled on (or "" at the
  // timeout), and whether the uploader exists under its Unix name. After
  // the scans, the port is resolved, each piece of the cleaned pattern is
  // expanded against the options and the port, and the blank pieces go.
  method AssembleCompilerCommand(boardname: string, portname: string, filePath: string, execDir: string,
                                 boardsTxt: Option<seq<string>>, platformTxt: Option<seq<string>>,
                                 touchOpens: bool, reappeared: string, toolExists: bool, fuel: nat)
      returns (r: Assembled)
    ensures Collect(boardname, filePath, execDir, boardsTxt, platformTxt).Decided? ==>
      r == Collect(boardname, filePath, execDir, boardsTxt, platformTxt).r
    ensures var c := Collect(boardname, filePath, execDir, boardsTxt, platformTxt);
      c.Collected? ==>
        var port := ResolvedPort(portname, Lookup(c.opts, TouchKey) == "true", touchOpens,
                                 Lookup(c.opts, WaitKey) == "true", reappeared);
        (r == PortUnavailable <==> port.None?) &&
        (port.Some? ==>
          var e := ExpandEach(Split(CleanPattern(Lookup(c.opts, PatternKey)), " "), WithPort(c.opts, port.value), fuel);
          (r == Unexpanded <==> e.None?) &&
          (e.Some? ==> r == Found(ToolPath(execDir, c.core, c.tool, toolExists), NonBlank(e.value))))
    ensures r.Found? ==> r.tool != "" && forall k :: 0 <= k < |r.args| ==> r.args[k] != "" && '{' !in r.args[k]
  {
    var fields := BoardFields(boardname);
    if fields.Err? {
      return Rejected(fields.msg);
    }
    var boardFields := fields.value;
    if boardsTxt.None? {
      return Rejected(NoBoardHead + boardname);
    }
    var scanned := ScanBoards(boardsTxt.value, boardFields[2]);
    if scanned.None? {
      return Panics;
    }
    var boardOptions := scanned.value;
    if |boardOptions| == 0 {
      return Rejected(NotPartOf(boardFields));
    }
    boardOptions := WithFile(boardOptions, filePath);
    if platformTxt.None? {
      return Rejected(NoBoardHead + boardname);
    }
    var tool := Lookup(boardOptions, ToolKey);
    var maps := ScanPlatform(platformTxt.value, tool, boardOptions);
    if maps.None? {
      return Panics;
    }
    boardOptions := WithToolPath(maps.value.0, maps.value.1, execDir, boardFields[0], tool);
    assert Collect(boardname, filePath, execDir, boardsTxt, platformTxt) == Collected(boardOptions, tool, boardFields[0]);
    var cmdline := CleanPattern(Lookup(boardOptions, PatternKey));
    var port := ResolvedPort(portname, Lookup(boardOptions, TouchKey) == "true", touchOpens,
                             Lookup(boardOptions, WaitKey) == "true", reappeared);
    if port.None? {
      return PortUnavailable;
    }
    boardOptions := WithPort(boardOptions, port.value);
    var pieces := Split(cmdline, " ");
    var expanded := ExpandAll(pieces, boardOptions, fuel);
    if expanded.None? {
      return Unexpanded;
    }
    var args := RemoveBlanks(expanded.value);
    var toolPath := ToolPath(execDir, boardFields[0], tool, toolExists);
    return Found(toolPath, args);
  }

  // The port after the optional 1200-bps touch: None when the port does
  // not open (the command is abandoned), the name that reappeared when
  // asked to wait, and the given name whenever that comes out empty.
  function ResolvedPort(portname: string, touch: bool, opens: bool, wait: bool, reappeared: string): (r: Option<string>)
    ensures r.None? <==> touch && !opens
    ensures r.Some? && portname != "" ==> r.value != ""
    ensures r.Some? && !(touch && wait) ==> r.value == portname
  {
    if touch && !opens then None
    else
      var p := if touch && wait then reappeared else portname;
      Some(if p == "" then portname else p)
  }

  // Every piece expanded in turn, or None when one does not settle.
  function ExpandEach(pieces: seq<string>, opts: map<string, string>, fuel: nat): Option<seq<string>>
    decreases |pieces|
  {
    if pieces == [] then Some([])
    else match ExpandEach(pieces[..|pieces| - 1], opts, fuel)
      case None => None
      case Some(done) =>
        match Expand(pieces[|pieces| - 1], opts, fuel)
        case None => None
        case Some(p) => Some(done + [p])
  }

  // A settled list holds each piece's own expansion.
  lemma {:induction false} ExpandEachSpec(pieces: seq<string>, opts: map<string, string>, fuel: nat)
    ensures var r := ExpandEach(pieces, opts, fuel);
      r.Some? ==> |r.value| == |pieces| && forall k :: 0 <= k < |pieces| ==> Expand(pieces[k], opts, fuel) == Some(r.value[k])
    decreases |pieces|
  {
    if pieces != [] {
      var init := pieces[..|pieces| - 1];
      ExpandEachSpec(init, opts, fuel);
      var r := ExpandEach(pieces, opts, fuel);
      if r.Some? {
        var done := ExpandEach(init, opts, fuel).value;
        assert r.value == done + [Expand(pieces[|pieces| - 1], opts, fuel).value];
        forall k | 0 <= k < |pieces|
          ensures Expand(pieces[k], opts, fuel) == Some(r.value[k])
        {
          if k < |init| {
            assert pieces[k] == init[k] && r.value[k] == done[k];
          }
        }
      }
    }
  }

  method ExpandAll(pieces: seq<string>, opts: map<string, string>, fuel: nat) returns (r: Option<seq<string>>)
    ensures r == ExpandEach(pieces, opts, fuel)
    ensures r.Some? ==> forall k :: 0 <= k < |r.value| ==> '{' !in r.value[k]
  {
    var out: seq<string> := [];
    var i := 0;
    while i < |pieces|
      invariant 0 <= i <= |pieces|
      invariant ExpandEach(pieces[..i], opts, fuel) == Some(out)
    {
      assert pieces[..i + 1][..i] == pieces[..i];
      var p := ExpandPiece(pieces[i], opts, fuel);
      if p.None? {
        ExpandNoneSticks(pieces, opts, fuel, i + 1);
        return None;
      }
      out := out + [p.value];
      i := i + 1;
    }
    assert pieces[..i] == pieces;
    ExpandEachSpec(pieces, opts, fuel);
    return Some(out);
  }

  lemma {:induction false} ExpandNoneSticks(pieces: seq<string>, opts: map<string, string>, fuel: nat, i: nat)
    requires i <= |pieces| && ExpandEach(pieces[..i], opts, fuel) == None
    ensures ExpandEach(pieces, opts, fuel) == None
    decreases |pieces| - i
  {
    if i < |pieces| {
      assert pieces[..i + 1][..i] == pieces[..i];
      ExpandNoneSticks(pieces, opts, fuel, i + 1);
    } else {
      assert pieces[..i] == pieces;
    }
  }

  // With brace-free option values every piece settles within one round.
  lemma {:induction false} ExpandEachSettles(pieces: seq<string>, opts: map<string, string>)
    requires ValuesBraceFree(opts)
    ensures ExpandEach(pieces, opts, 1).Some?
    decreases |pieces|
  {
    if pieces != [] {
      ExpandEachSettles(pieces[..|pieces| - 1], opts);
      ExpandOneRound(pieces[|pieces| - 1], opts);
    }
  }
}
