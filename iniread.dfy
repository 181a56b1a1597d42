// The iniflags config reader (getArgsFromConfig): a file is read line by
// line, every line turned into a flag argument, a comment, a section
// header, a piece of a multi-line argument or an #import of another file,
// with the stack of files being imported guarding against import cycles.
//
// ArgsOf and ScanLines say what the reader returns; the Loader class reads
// the same way the source does, a loop over the lines that updates the
// pending comment, the pending multi-line argument and the list of
// arguments, and is proved to return what ArgsOf says.

module IniReader {
  import opened Wrappers
  import opened GoStrings
  import opened Paths
  import opened Bytes
  import opened IniFlags

  // flagArg
  datatype FlagArg = FlagArg(key: string, value: string, filePath: string, lineNum: nat, comment: string)

  // The zero flagArg.
  function NoArg(): FlagArg { FlagArg("", "", "", 0, "") }

  // What getArgsFromConfig gives back: the arguments and the ok flag, or
  // the panic that unquoteValue raises on a lone opening quote.
  datatype Outcome = Read(args: seq<FlagArg>, ok: bool) | Panicked

  function Failed(): Outcome { Read([], false) }

  // The files that can be opened, by path (local or HTTP), whether a
  // missing file is acceptable (allowMissingConfig), and how a path is
  // resolved against an HTTP base (url.ResolveReference; None when either
  // address does not parse).
  datatype Env = Env(files: map<string, string>, allowMissing: bool, resolve: (string, string) -> Option<string>)

  // ---------------------------------------------------------------------
  // Reading lines

  // The lines bufio.Reader.ReadString('\n') hands out one after the
  // other: each up to and including its newline, the last one without a
  // newline when the text does not end with one. An empty text has none.
  function Lines(c: string): seq<string>
    decreases |c|
  {
    if c == [] then []
    else
      match Index(c, "\n")
      case None => [c]
      case Some(i) => [c[..i + 1]] + Lines(c[i + 1..])
  }

  // The first line of a text holding a newline, and the lines after it.
  lemma LinesBreak(c: string, i: nat)
    requires c != [] && Index(c, "\n") == Some(i)
    ensures i < |c| && Lines(c) == [c[..i + 1]] + Lines(c[i + 1..])
  {
  }

  // Every line is non-empty and holds a newline only at its end, and every
  // line but the last ends in one.
  lemma {:induction false} LinesShape(c: string)
    ensures forall k :: 0 <= k < |Lines(c)| ==> Lines(c)[k] != [] && '\n' !in Lines(c)[k][..|Lines(c)[k]| - 1]
    ensures forall k :: 0 <= k < |Lines(c)| - 1 ==> Lines(c)[k][|Lines(c)[k]| - 1] == '\n'
    decreases |c|
  {
    if c != [] {
      var x := Index(c, "\n");
      if x.None? {
        assert Lines(c) == [c];
        NotContainsChar(c, '\n');
        assert c[..|c| - 1] <= c;
      } else {
        var i := x.value;
        LinesBreak(c, i);
        PrefixBeforeFirstFree(c, "\n", i);
        NotContainsChar(c[..i], '\n');
        OccursChar(c, '\n', i);
        var line := c[..i + 1];
        assert line[..|line| - 1] == c[..i];
        var rest := Lines(c[i + 1..]);
        LinesShape(c[i + 1..]);
        assert forall k :: 1 <= k < |rest| + 1 ==> Lines(c)[k] == rest[k - 1];
      }
    }
  }

  // Reading every line gives the whole text back.
  lemma {:induction false} LinesFlatten(c: string)
    ensures Flatten(Lines(c)) == c
    decreases |c|
  {
    if c != [] {
      var x := Index(c, "\n");
      if x.None? {
        assert Lines(c) == [c];
        FlattenCons(c, []);
      } else {
        LinesBreak(c, x.value);
        var rest := c[x.value + 1..];
        LinesFlatten(rest);
        FlattenCons(c[..x.value + 1], Lines(rest));
        Rejoin(c, x.value + 1);
      }
    }
  }

  // A line as the reader looks at it: the first line loses its byte
  // order mark, and every line its surrounding white space.
  function Prepared(raw: string, lineNum: nat): string
  {
    TrimSpace(if lineNum == 1 then StripBOM(raw) else raw)
  }

  // ---------------------------------------------------------------------
  // One line

  // The reader's state between lines: the arguments so far, the comment
  // waiting for the next argument, and the multi-line argument being
  // gathered (the zero flagArg when there is none).
  datatype Scan = Scan(args: seq<FlagArg>, comment: string, multi: FlagArg)

  function Start(): Scan { Scan([], "", NoArg()) }

  datatype Next = Go(st: Scan) | Stop | Crash

  // What one prepared line that is not an #import does to the state.
  // Empty lines and section headers drop the pending comment; a line
  // opening with '#' or ';' becomes the pending comment; a line without
  // '=' stops the reader with an error; otherwise the text before the
  // first '=' is the key and the rest its value.
  function LineStep(st: Scan, line: string, lineNum: nat, path: string): (r: Next)
    ensures r.Go? ==> st.args <= r.st.args
    ensures r.Go? && r.st.comment != "" ==> line != [] && (line[0] == '#' || line[0] == ';') && r.st.comment == line[1..]
    ensures r.Stop? ==> line != [] && line[0] != '[' && line[0] != '#' && line[0] != ';'
    ensures r.Crash? ==> line != [] && line[0] != '[' && line[0] != '#' && line[0] != ';'
  {
    if line == [] || line[0] == '[' then Go(st.(comment := ""))
    else if line[0] == '#' || line[0] == ';' then Go(st.(comment := line[1..]))
    else
      var parts := SplitN(line, "=", 2);
      if |parts| != 2 then Stop
      else
        match UnquoteValue(parts[1])
        case Panics => Crash
        case Unquoted(value, cmt) => ArgStep(st, TrimSpace(parts[0]), value, cmt, lineNum, path)
  }

  // A key and its unquoted value. The value's own comment is used only
  // when no comment line came before. A key ending in '}' is a piece
  // "name{delimiter}" of a multi-line argument: it starts one, adds the
  // delimiter and its value to the one under way with the same name, or
  // closes that one and starts another. Any other key closes the one
  // under way and is an argument of its own.
  function ArgStep(st: Scan, key: string, value: string, cmt: string, lineNum: nat, path: string): (r: Next)
    ensures r.Go? ==> st.args <= r.st.args && r.st.comment == ""
    ensures !r.Crash?
  {
    var fa := FlagArg(key, value, path, lineNum, if st.comment == "" then cmt else st.comment);
    if !HasSuffix(key, "}") then
      if |st.multi.key| > 0 then Go(Scan(st.args + [st.multi] + [fa], "", NoArg()))
      else Go(Scan(st.args + [fa], "", st.multi))
    else
      match LastIndex(key, "{")
      case None => Stop
      case Some(n) =>
        OccursChar(key, '{', n);
        assert key[|key| - 1..][0] == '}';
        if st.multi.key == "" then Go(Scan(st.args, "", fa.(key := key[..n])))
        else if st.multi.key == key[..n] then
          Go(Scan(st.args, "", st.multi.(value := st.multi.value + key[n + 1..|key| - 1] + value)))
        else Go(Scan(st.args + [st.multi], "", fa.(key := key[..n])))
  }

  // At the end of the file the multi-line argument under way, if it has a
  // name, joins the arguments.
  function Finish(st: Scan): (r: seq<FlagArg>)
    ensures st.args <= r
    ensures |st.multi.key| > 0 ==> r == st.args + [st.multi]
    ensures |st.multi.key| == 0 ==> r == st.args
  {
    if |st.multi.key| > 0 then st.args + [st.multi] else st.args
  }

  // ---------------------------------------------------------------------
  // Files and imports

  // The files not yet on the import stack: each import that opens a file
  // takes one away, which is why the reader ends.
  function Measure(env: Env, stack: seq<string>): nat
  {
    |env.files.Keys - set p | p in stack|
  }

  lemma MeasureDrops(env: Env, stack: seq<string>, path: string)
    requires path in env.files && path !in stack
    ensures Measure(env, stack + [path]) < Measure(env, stack)
  {
    var before := env.files.Keys - set p | p in stack;
    var after := env.files.Keys - set p | p in stack + [path];
    assert after == before - {path};
    assert path in before;
  }

  // getArgsFromConfig(path) with `stack` the import stack at the call. A
  // path already on the stack is an import cycle and fails; a file that
  // cannot be opened gives no arguments, which is fine only when missing
  // files are allowed. Whenever the reader fails it returns no arguments.
  function ArgsOf(env: Env, stack: seq<string>, path: string): (r: Outcome)
    ensures path in stack ==> r == Failed()
    ensures path !in stack && path !in env.files ==> r == Read([], env.allowMissing)
    ensures r.Read? && !r.ok ==> r.args == []
    decreases Measure(env, stack), 0, 0
  {
    if path in stack then Failed()
    else if path !in env.files then Read([], env.allowMissing)
    else
      MeasureDrops(env, stack, path);
      ScanLines(env, stack + [path], path, Lines(env.files[path]), 0, Start())
  }

  // The arguments of an "#import " line: the named file, quoted or not,
  // read relative to the one being read; a failed resolution fails.
  function ImportOf(env: Env, stack: seq<string>, path: string, line: string): (r: Outcome)
    requires HasPrefix(line, "#import ")
    ensures r.Read? && !r.ok ==> r.args == []
    decreases Measure(env, stack), 0, 1
  {
    match UnquoteValue(line[7..])
    case Panics => Panicked
    case Unquoted(importPath, _) =>
      match CombinePath(env.resolve, path, importPath)
      case None => Failed()
      case Some(p) => ArgsOf(env, stack, p)
  }

  // The reader from line i on, in state st. An "#import " line names a
  // file, quoted or not, relative to the one being read; its arguments
  // are added at that point, and its failure or panic is the reader's.
  // Arguments once gathered are never taken back: a successful read ends
  // with the ones st already holds.
  function ScanLines(env: Env, stack: seq<string>, path: string, lines: seq<string>, i: nat, st: Scan)
    : (r: Outcome)
    requires i <= |lines|
    ensures r.Read? && !r.ok ==> r.args == []
    ensures r.Read? && r.ok ==> st.args <= r.args
    decreases Measure(env, stack), 1, |lines| - i
  {
    if i == |lines| then Read(Finish(st), true)
    else
      var line := Prepared(lines[i], i + 1);
      if HasPrefix(line, "#import ") then
        var imported := ImportOf(env, stack, path, line);
        if imported.Panicked? then Panicked
        else if !imported.ok then Failed()
        else ScanLines(env, stack, path, lines, i + 1, st.(args := st.args + imported.args))
      else
        match LineStep(st, line, i + 1, path)
        case Stop => Failed()
        case Crash => Panicked
        case Go(next) => ScanLines(env, stack, path, lines, i + 1, next)
  }

  // The non-import part of the loop body of getArgsFromConfig: the
  // pending comment, the multi-line argument under way and the list of
  // arguments as the source updates them for one prepared line.
  method ParseLine(args0: seq<FlagArg>, comment0: string, multi0: FlagArg, line: string, lineNum: nat, path: string)
    returns (next: Next)
    ensures next == LineStep(Scan(args0, comment0, multi0), line, lineNum, path)
  {
    var args, comment, multi := args0, comment0, multi0;
    if line == [] || line[0] == '[' {
      comment := "";
    } else if line[0] == '#' || line[0] == ';' {
      comment := line[1..];
    } else {
      var parts := SplitN(line, "=", 2);
      if |parts| != 2 {
        return Stop;
      }
      var key := TrimSpace(parts[0]);
      var u := UnquoteValue(parts[1]);
      if u.Panics? {
        return Crash;
      }
      if comment == "" {
        comment := u.comment;
      }
      var fa := FlagArg(key, u.value, path, lineNum, comment);
      comment := "";
      if !HasSuffix(key, "}") {
        if |multi.key| > 0 {
          args := args + [multi];
          multi := NoArg();
        }
        args := args + [fa];
      } else {
        var n := LastIndex(key, "{");
        if n.None? {
          return Stop;
        }
        OccursChar(key, '{', n.value);
        assert key[|key| - 1..][0] == '}';
        if multi.key == "" {
          multi := fa.(key := key[..n.value]);
        } else if multi.key == key[..n.value] {
          var delimiter := key[n.value + 1..|key| - 1];
          multi := multi.(value := multi.value + delimiter);
          multi := multi.(value := multi.value + u.value);
        } else {
          args := args + [multi];
          multi := fa.(key := key[..n.value]);
        }
      }
    }
    return Go(Scan(args, comment, multi));
  }

  // ---------------------------------------------------------------------
  // The reader

  class Loader {
    // importStack: the files being read, outermost first.
    var importStack: seq<string>

    constructor ()
      ensures importStack == []
    {
      importStack := [];
    }

    // checkImportRecursion
    method CheckImportRecursion(configPath: string) returns (ok: bool)
      ensures ok <==> configPath !in importStack
    {
      for k := 0 to |importStack|
        invariant configPath !in importStack[..k]
      {
        if importStack[k] == configPath {
          return false;
        }
      }
      assert importStack[..|importStack|] == importStack;
      return true;
    }

    // getArgsFromConfig: the path goes on the import stack while its file
    // is read and comes off again however the reading ends.
    method GetArgsFromConfig(env: Env, configPath: string) returns (r: Outcome)
      modifies this
      ensures importStack == old(importStack)
      ensures r == ArgsOf(env, old(importStack), configPath)
      decreases Measure(env, importStack), 0, 0
    {
      var ok := CheckImportRecursion(configPath);
      if !ok {
        return Failed();
      }
      importStack := importStack + [configPath];
      if configPath !in env.files {
        r := Read([], env.allowMissing);
      } else {
        MeasureDrops(env, old(importStack), configPath);
        r := ReadLines(env, configPath);
      }
      importStack := importStack[..|importStack| - 1];
    }

    // The "#import " branch of the loop of getArgsFromConfig.
    method ReadImport(env: Env, configPath: string, line: string) returns (r: Outcome)
      requires HasPrefix(line, "#import ")
      modifies this
      ensures importStack == old(importStack)
      ensures r == ImportOf(env, importStack, configPath, line)
      decreases Measure(env, importStack), 0, 1
    {
      var u := UnquoteValue(line[7..]);
      if u.Panics? {
        return Panicked;
      }
      var importPath := CombinePath(env.resolve, configPath, u.value);
      if importPath.None? {
        return Failed();
      }
      r := GetArgsFromConfig(env, importPath.value);
    }

    // The loop of getArgsFromConfig over the lines of an opened file.
    method ReadLines(env: Env, configPath: string) returns (r: Outcome)
      requires configPath in env.files
      modifies this
      ensures importStack == old(importStack)
      ensures r == ScanLines(env, importStack, configPath, Lines(env.files[configPath]), 0, Start())
      decreases Measure(env, importStack), 1, 0
    {
      var stack := importStack;
      var lines := Lines(env.files[configPath]);
      var args: seq<FlagArg> := [];
      var comment := "";
      var multi := NoArg();
      var i := 0;
      while i < |lines|
        invariant i <= |lines|
        invariant importStack == stack
        invariant ScanLines(env, stack, configPath, lines, i, Scan(args, comment, multi))
               == ScanLines(env, stack, configPath, lines, 0, Start())
        decreases |lines| - i
      {
        var lineNum := i + 1;
        var line := Prepared(lines[i], lineNum);
        if HasPrefix(line, "#import ") {
          var imported := ReadImport(env, configPath, line);
          ScanImport(env, stack, configPath, lines, i, Scan(args, comment, multi));
          if imported.Panicked? {
            return Panicked;
          }
          if !imported.ok {
            return Failed();
          }
          args := args + imported.args;
          i := i + 1;
          continue;
        }
        var next := ParseLine(args, comment, multi, line, lineNum, configPath);
        ScanPlain(env, stack, configPath, lines, i, Scan(args, comment, multi));
        match next
        case Stop =>
          return Failed();
        case Crash =>
          return Panicked;
        case Go(st) =>
          args, comment, multi := st.args, st.comment, st.multi;
        i := i + 1;
      }
      if |multi.key| > 0 {
        args := args + [multi];
      }
      return Read(args, true);
    }
  }

  // One "#import " line of the reader.
  lemma ScanImport(env: Env, stack: seq<string>, path: string, lines: seq<string>, i: nat, st: Scan)
    requires i < |lines| && HasPrefix(Prepared(lines[i], i + 1), "#import ")
    ensures var imported := ImportOf(env, stack, path, Prepared(lines[i], i + 1));
      ScanLines(env, stack, path, lines, i, st)
      == if imported.Panicked? then Panicked
         else if !imported.ok then Failed()
         else ScanLines(env, stack, path, lines, i + 1, st.(args := st.args + imported.args))
  {
  }

  // One line of the reader that is not an import.
  lemma ScanPlain(env: Env, stack: seq<string>, path: string, lines: seq<string>, i: nat, st: Scan)
    requires i < |lines| && !HasPrefix(Prepared(lines[i], i + 1), "#import ")
    ensures ScanLines(env, stack, path, lines, i, st)
      == match LineStep(st, Prepared(lines[i], i + 1), i + 1, path)
         case Stop => Failed()
         case Crash => Panicked
         case Go(next) => ScanLines(env, stack, path, lines, i + 1, next)
  {
  }

  // ---------------------------------------------------------------------
  // Properties of the reader

  // A character that means nothing to the reader inside a key, a
  // delimiter or a value.
  predicate Plain(c: char)
  {
    c !in Spaces && c !in {'=', '{', '}', '#', ';', '"', '['}
  }

  predicate Word(w: string)
  {
    w != [] && forall i :: 0 <= i < |w| ==> Plain(w[i])
  }

  predicate Delimiter(d: string)
  {
    forall i :: 0 <= i < |d| ==> Plain(d[i])
  }

  // An unquoted word is its own value, with no comment.
  lemma WordValue(v: string)
    requires Word(v)
    ensures UnquoteValue(v) == Unquoted(v, "")
  {
    TrimAbsent(v, Spaces);
    assert '#' !in v && ';' !in v;
    NoComment(v);
  }

  // The key of "key=value" when the key holds no '='.
  lemma SplitKeyValue(h: string, v: string)
    requires '=' !in h
    ensures SplitN(h + "=" + v, "=", 2) == [h, v]
  {
    SplitNAfterFree(h, '=', v, 2);
  }

  // The last '{' of "name{delimiter}" is the one after the name.
  lemma LastBrace(k: string, d: string)
    requires Word(k) && Delimiter(d)
    ensures LastIndex(k + "{" + d + "}", "{") == Some(|k|)
  {
    var h := k + "{" + d + "}";
    OccursChar(h, '{', |k|);
    forall j: nat | j > |k|
      ensures !OccursAt(h, "{", j)
    {
      OccursChar(h, '{', j);
      if |k| < j < |h| - 1 {
        assert h[j] == d[j - |k| - 1];
      }
    }
  }

  // How the reader takes a piece "k{d}=v" apart.
  lemma MultiLineParts(k: string, d: string, v: string)
    requires Word(k) && Delimiter(d) && Word(v)
    ensures var h := k + "{" + d + "}"; var line := k + "{" + d + "}=" + v;
      && line != [] && line[0] != '[' && line[0] != '#' && line[0] != ';'
      && SplitN(line, "=", 2) == [h, v] && TrimSpace(h) == h && HasSuffix(h, "}")
      && UnquoteValue(v) == Unquoted(v, "")
      && LastIndex(h, "{") == Some(|k|) && h[..|k|] == k && h[|k| + 1..|h| - 1] == d
  {
    var h := k + "{" + d + "}";
    var line := k + "{" + d + "}=" + v;
    assert line == h + "=" + v;
    MultiLineKey(k, d);
    SplitKeyValue(h, v);
    WordValue(v);
    assert line[0] == k[0];
  }

  // The key "k{d}" of a multi-line piece.
  lemma MultiLineKey(k: string, d: string)
    requires Word(k) && Delimiter(d)
    ensures var h := k + "{" + d + "}";
      && '=' !in h && TrimSpace(h) == h && HasSuffix(h, "}")
      && LastIndex(h, "{") == Some(|k|) && h[..|k|] == k && h[|k| + 1..|h| - 1] == d
  {
    var h := k + "{" + d + "}";
    forall i | 0 <= i < |h|
      ensures h[i] !in Spaces && h[i] != '='
    {
      if i < |k| {
        assert h[i] == k[i];
      } else if |k| < i < |h| - 1 {
        assert h[i] == d[i - |k| - 1];
      }
    }
    TrimAbsent(h, Spaces);
    LastBrace(k, d);
    assert h[..|k|] == k;
    assert h[|k| + 1..|h| - 1] == d;
  }

  // A line that is neither blank, a section nor a comment, split at its
  // first '=' into a key and a value that unquotes.
  lemma LineStepArg(st: Scan, line: string, h: string, w: string, value: string, cmt: string, n: nat, path: string)
    requires line != [] && line[0] != '[' && line[0] != '#' && line[0] != ';'
    requires SplitN(line, "=", 2) == [h, w] && UnquoteValue(w) == Unquoted(value, cmt)
    ensures LineStep(st, line, n, path) == ArgStep(st, TrimSpace(h), value, cmt, n, path)
  {
  }

  // A piece "k{d}=v" of a multi-line argument: it starts the argument k
  // when none is under way, adds d and v to the value of k when k is
  // under way, and otherwise closes the argument under way and starts k.
  // The argument takes the pending comment, if any.
  lemma MultiLineStep(st: Scan, k: string, d: string, v: string, n: nat, path: string)
    requires Word(k) && Delimiter(d) && Word(v)
    ensures var line := k + "{" + d + "}=" + v;
      var fa := FlagArg(k, v, path, n, st.comment);
      && (st.multi.key == "" ==> LineStep(st, line, n, path) == Go(Scan(st.args, "", fa)))
      && (st.multi.key == k ==>
            LineStep(st, line, n, path) == Go(Scan(st.args, "", st.multi.(value := st.multi.value + d + v))))
      && (st.multi.key != "" && st.multi.key != k ==>
            LineStep(st, line, n, path) == Go(Scan(st.args + [st.multi], "", fa)))
  {
    var h := k + "{" + d + "}";
    MultiLineParts(k, d, v);
    LineStepArg(st, k + "{" + d + "}=" + v, h, v, v, "", n, path);
  }

  // A plain "k=v" closes the multi-line argument under way, if it has a
  // name, and is an argument of its own carrying the pending comment.
  lemma PlainLineStep(st: Scan, k: string, v: string, n: nat, path: string)
    requires Word(k) && Word(v)
    ensures LineStep(st, k + "=" + v, n, path)
         == Go(Scan(Finish(st) + [FlagArg(k, v, path, n, st.comment)], "",
                    if |st.multi.key| > 0 then NoArg() else st.multi))
  {
    var line := k + "=" + v;
    assert '=' !in k;
    SplitKeyValue(k, v);
    TrimAbsent(k, Spaces);
    WordValue(v);
    assert line[0] == k[0];
    LineStepArg(st, line, k, v, v, "", n, path);
    assert k[|k| - 1..][0] != '}';
  }

  // Consecutive pieces "k{d}=v1" and "k{d}=v2" at the end of a file give
  // one argument k whose value is v1, d and v2 joined, with the line number
  // and comment of the first piece.
  lemma MultiLineAccumulates(st: Scan, k: string, d: string, v1: string, v2: string, n1: nat, n2: nat, path: string)
    requires Word(k) && Delimiter(d) && Word(v1) && Word(v2) && st.multi.key == ""
    ensures var s1 := LineStep(st, k + "{" + d + "}=" + v1, n1, path);
      s1.Go? &&
      var s2 := LineStep(s1.st, k + "{" + d + "}=" + v2, n2, path);
      s2.Go? && Finish(s2.st) == st.args + [FlagArg(k, v1 + d + v2, path, n1, st.comment)]
  {
    MultiLineStep(st, k, d, v1, n1, path);
    var st1 := Scan(st.args, "", FlagArg(k, v1, path, n1, st.comment));
    MultiLineStep(st1, k, d, v2, n2, path);
  }

  // A comment line is the comment of the argument on the next line.
  lemma CommentAttaches(st: Scan, c: string, k: string, v: string, n: nat, path: string)
    requires Word(k) && Word(v) && st.multi == NoArg()
    ensures var s1 := LineStep(st, "#" + c, n, path);
      s1.Go? &&
      LineStep(s1.st, k + "=" + v, n + 1, path) == Go(Scan(st.args + [FlagArg(k, v, path, n + 1, c)], "", NoArg()))
  {
    assert ("#" + c)[1..] == c;
    PlainLineStep(st.(comment := c), k, v, n + 1, path);
  }

  // The first line of a file that opens with "#import f", as the reader
  // sees it.
  lemma ImportFirstLine(f: string, rest: string)
    requires Word(f)
    ensures var c := "#import " + f + "\n" + rest;
      Lines(c) == ["#import " + f + "\n"] + Lines(rest) && Prepared(Lines(c)[0], 1) == "#import " + f
  {
    var c := "#import " + f + "\n" + rest;
    var s0 := "#import " + f;
    assert '\n' !in s0 by {
      assert forall i :: 0 <= i < |f| ==> f[i] != '\n';
    }
    IndexAfterFree(s0, '\n', rest);
    var line0 := s0 + "\n";
    CutConcat(line0, rest);
    StripBOMPlain(line0);
    assert line0[0] == '#';
    TrimLeftKeep(line0, Spaces);
    assert line0[..|line0| - 1] == s0;
    assert s0[|s0| - 1] == f[|f| - 1];
    TrimRightKeep(s0, Spaces);
  }

  // The path named by "#import f".
  lemma ImportTarget(f: string)
    requires Word(f)
    ensures UnquoteValue(("#import " + f)[7..]) == Unquoted(f, "")
  {
    var q := ("#import " + f)[7..];
    assert q == [' '] + f;
    TrimLeftCut(' ', f, Spaces);
    TrimAbsent(f, Spaces);
    WordValue(f);
  }

  // A file of the root directory whose first line imports the file itself
  // is an import cycle: reading it fails, whatever follows.
  lemma SelfImportFails(env: Env, f: string, rest: string)
    requires Word(f) && IsName(f) && !IsHTTP(f)
    requires Slash + f in env.files && env.files[Slash + f] == "#import " + f + "\n" + rest
    ensures ArgsOf(env, [], Slash + f) == Failed()
  {
    var path := Slash + f;
    var line := "#import " + f;
    ImportFirstLine(f, rest);
    ImportTarget(f);
    assert HasPrefix(line, "#import ");
    CombineSibling(env.resolve, f, f);
    assert ImportOf(env, [path], path, line) == Failed();
    SelfImportScan(env, path, line, Lines(env.files[path]));
  }

  lemma SelfImportScan(env: Env, path: string, line: string, lines: seq<string>)
    requires path in env.files && lines == Lines(env.files[path])
    requires |lines| >= 1 && Prepared(lines[0], 1) == line && HasPrefix(line, "#import ")
    requires ImportOf(env, [path], path, line) == Failed()
    ensures ArgsOf(env, [], path) == Failed()
  {
    assert [] + [path] == [path];
    assert ScanLines(env, [path], path, lines, 0, Start()) == Failed();
  }
}
