// findFiles of boards/boards.go: every `{runtime.platform.path}...` in an
// action's command whose file reads is attached to the action and named
// by its base name below the platform's path.
module PlatformFiles {
  import opened GoStrings
  import opened Paths
  import opened Wrappers
  import Upload

  // The pieces of a match of `{runtime.platform.path}[\w\/\.\-]*`: the
  // two unescaped '.' of the key match any character but a newline.
  const RuntimeHead: string := "{runtime"
  const PlatformWord: string := "platform"
  const PathTail: string := "path}"
  const PlatformPathKey: string := RuntimeHead + "." + PlatformWord + "." + PathTail

  // The first 23 characters of a match.
  predicate KeyWindow(w: string)
    requires |w| == 23
  {
    w[..8] == RuntimeHead && w[8] != '\n' && w[9..17] == PlatformWord && w[17] != '\n' && w[18..] == PathTail
  }

  lemma KeyIsWindow()
    ensures KeyWindow(PlatformPathKey) && Upload.IsKey(PlatformPathKey)
  {
    var k := PlatformPathKey;
    assert k[..8] == RuntimeHead && k[8] == '.' && k[9..17] == PlatformWord;
    assert k[17] == '.' && k[18..] == PathTail;
    assert k[1..] == RuntimeHead[1..] + "." + PlatformWord + "." + PathTail;
    assert '{' !in RuntimeHead[1..] && '{' !in PlatformWord && '{' !in PathTail;
  }

  // The characters of [\w\/\.\-].
  predicate PathChar(c: char)
  {
    ('a' <= c <= 'z') || ('A' <= c <= 'Z') || ('0' <= c <= '9') || c == '_' || c == '/' || c == '.' || c == '-'
  }

  // The length of the run of path characters the greedy star takes.
  function PathRun(s: string): (n: nat)
    ensures n <= |s| && (n == |s| || !PathChar(s[n]))
    ensures forall j :: 0 <= j < n ==> PathChar(s[j])
  {
    if s == [] || !PathChar(s[0]) then 0 else 1 + PathRun(s[1..])
  }

  // Where a match starting at s[0] ends, if one starts there.
  function MatchEnd(s: string): (e: Option<nat>)
    ensures e.Some? ==> 23 <= e.value <= |s|
  {
    if |s| >= 23 && KeyWindow(s[..23]) then Some(23 + PathRun(s[23..])) else None
  }

  // The name of the file a match stands for: the key replaced by the
  // platform's path.
  function FileName(token: string, platPath: string): string
  {
    ReplaceAll(token, PlatformPathKey, platPath)
  }

  // findFiles' command: every match, left to right and without overlap as
  // ReplaceAllStringFunc takes them, becomes "{runtime.platform.path}/"
  // and the base name of its file when that file reads (`readable`), and
  // stays as it is otherwise.
  function Rewritten(s: string, platPath: string, readable: string -> bool): string
    decreases |s|
  {
    if s == [] then []
    else match MatchEnd(s)
      case Some(e) =>
        var f := FileName(s[..e], platPath);
        (if readable(f) then PlatformPathKey + "/" + Base(f) else s[..e]) + Rewritten(s[e..], platPath, readable)
      case None => [s[0]] + Rewritten(s[1..], platPath, readable)
  }

  // findFiles' action.Files: reset, then the base name of each file that
  // reads, in the order of the matches.
  function Attached(s: string, platPath: string, readable: string -> bool): seq<string>
    decreases |s|
  {
    if s == [] then []
    else match MatchEnd(s)
      case Some(e) =>
        var f := FileName(s[..e], platPath);
        (if readable(f) then [Base(f)] else []) + Attached(s[e..], platPath, readable)
      case None => Attached(s[1..], platPath, readable)
  }

  // No match starts at a character other than '{'.
  lemma NoMatchOffBrace(u: string)
    requires u != [] && u[0] != '{'
    ensures MatchEnd(u).None?
  {
    assert RuntimeHead[0] == '{';
    if |u| >= 23 {
      assert u[..23][..8][0] == u[0];
    }
  }

  // Text before the first '{' is copied as it is.
  lemma {:induction false} PlainPrefixKept(a: string, s: string, platPath: string, readable: string -> bool)
    requires '{' !in a
    ensures Rewritten(a + s, platPath, readable) == a + Rewritten(s, platPath, readable)
    ensures Attached(a + s, platPath, readable) == Attached(s, platPath, readable)
    decreases |a|
  {
    if a != [] {
      var u := a + s;
      NoMatchOffBrace(u);
      assert u[1..] == a[1..] + s;
      PlainPrefixKept(a[1..], s, platPath, readable);
      assert [a[0]] + (a[1..] + Rewritten(s, platPath, readable)) == a + Rewritten(s, platPath, readable);
    } else {
      assert a + s == s;
    }
  }

  // A command without '{' has nothing to rewrite and attaches nothing.
  lemma BraceFreeKept(s: string, platPath: string, readable: string -> bool)
    requires '{' !in s
    ensures Rewritten(s, platPath, readable) == s && Attached(s, platPath, readable) == []
  {
    PlainPrefixKept(s, [], platPath, readable);
    assert s + [] == s;
  }

  // When no file reads, the command is kept and no file is attached.
  lemma {:induction false} NothingReadsKept(s: string, platPath: string, readable: string -> bool)
    requires forall f :: !readable(f)
    ensures Rewritten(s, platPath, readable) == s && Attached(s, platPath, readable) == []
    decreases |s|
  {
    if s != [] {
      match MatchEnd(s)
      case Some(e) =>
        NothingReadsKept(s[e..], platPath, readable);
        assert s[..e] + s[e..] == s;
      case None =>
        NothingReadsKept(s[1..], platPath, readable);
        assert [s[0]] + s[1..] == s;
    }
  }

  // The key followed by a relative path: the path is looked up below the
  // platform's directory and, when it reads, attached under its base name
  // and named by "{runtime.platform.path}/<base>"; otherwise kept.
  lemma KeyPathRewritten(rel: string, rest: string, platPath: string, readable: string -> bool)
    requires forall j :: 0 <= j < |rel| ==> PathChar(rel[j])
    requires rest == [] || !PathChar(rest[0])
    ensures var s, f := PlatformPathKey + rel + rest, platPath + rel;
      Rewritten(s, platPath, readable)
        == (if readable(f) then PlatformPathKey + "/" + Base(f) else PlatformPathKey + rel) + Rewritten(rest, platPath, readable)
      && Attached(s, platPath, readable) == (if readable(f) then [Base(f)] else []) + Attached(rest, platPath, readable)
  {
    var s := PlatformPathKey + rel + rest;
    KeyMatch(rel, rest);
    KeyFileName(rel, platPath);
  }

  // The match of the key and a path ends where the path does.
  lemma KeyMatch(rel: string, rest: string)
    requires forall j :: 0 <= j < |rel| ==> PathChar(rel[j])
    requires rest == [] || !PathChar(rest[0])
    ensures var s := PlatformPathKey + rel + rest;
      MatchEnd(s) == Some(23 + |rel|) && s[..23 + |rel|] == PlatformPathKey + rel && s[23 + |rel|..] == rest
  {
    var s := PlatformPathKey + rel + rest;
    KeyIsWindow();
    assert s[..23] == PlatformPathKey;
    assert s[23..] == rel + rest;
    RunOfPath(rel, rest);
  }

  // The key with a path after it names that path below the platform.
  lemma KeyFileName(rel: string, platPath: string)
    requires forall j :: 0 <= j < |rel| ==> PathChar(rel[j])
    ensures FileName(PlatformPathKey + rel, platPath) == platPath + rel
  {
    KeyIsWindow();
    assert '{' !in rel by {
      forall j | 0 <= j < |rel| ensures rel[j] != '{' {
        assert PathChar(rel[j]);
      }
    }
    Upload.ReplaceLoneKey([], PlatformPathKey, rel, platPath);
    assert [] + PlatformPathKey + rel == PlatformPathKey + rel && [] + platPath + rel == platPath + rel;
  }

  // The greedy run over a path followed by a non-path character ends at
  // the path's end.
  lemma {:induction false} RunOfPath(rel: string, rest: string)
    requires forall j :: 0 <= j < |rel| ==> PathChar(rel[j])
    requires rest == [] || !PathChar(rest[0])
    ensures PathRun(rel + rest) == |rel|
    decreases |rel|
  {
    if rel == [] {
      assert rel + rest == rest;
    } else {
      assert (rel + rest)[1..] == rel[1..] + rest;
      RunOfPath(rel[1..], rest);
    }
  }
}
