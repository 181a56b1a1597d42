// utilities/utilities.go: joining a sub-path onto a directory while
// refusing any result that escapes the directory, and the guard that
// `saveFileonTempDir` puts in front of file creation.
module Utilities {
  import opened Wrappers
  import opened GoStrings
  import opened Paths

  // Go's SafeJoin returns the joined path together with an optional error.
  datatype Joined = Joined(path: string, err: Option<string>)

  // `parent` with a trailing separator, added only when missing.
  function WithSeparator(parent: string): (r: string)
    ensures HasSuffix(r, Slash)
    ensures HasSuffix(parent, Slash) ==> r == parent
    ensures !HasSuffix(parent, Slash) ==> r == parent + Slash
  {
    if HasSuffix(parent, Slash) then parent else parent + Slash
  }

  function UnsafeJoinMessage(parent: string, subdir: string): string
  {
    "unsafe path join: '" + parent + "' with '" + subdir + "'"
  }

  // SafeJoin: Join(parent, subdir), with an "unsafe path join" error when
  // the result does not start with parent followed by the separator. The
  // joined path is returned in both cases.
  function SafeJoin(parent: string, subdir: string): (r: Joined)
    ensures r.path == JoinPath([parent, subdir])
    ensures r.err.None? ==> HasPrefix(r.path, parent)
    ensures r.err.None? && !HasSuffix(parent, Slash) ==> |r.path| > |parent|
    ensures r.err.Some? ==> r.err.value == UnsafeJoinMessage(WithSeparator(parent), subdir)
  {
    var res := JoinPath([parent, subdir]);
    var sep := WithSeparator(parent);
    if HasPrefix(res, sep) then Joined(res, None)
    else Joined(res, Some(UnsafeJoinMessage(sep, subdir)))
  }

  // saveFileonTempDir: the SafeJoin error is returned before any file is
  // touched; otherwise the file would be created at the joined path.
  function SaveFileTarget(tmpDir: string, filename: string): (r: Result<string>)
    ensures r.Ok? <==> SafeJoin(tmpDir, filename).err.None?
    ensures r.Ok? ==> r.value == SafeJoin(tmpDir, filename).path
    ensures r.Err? ==> r.msg == SafeJoin(tmpDir, filename).err.value
  {
    var j := SafeJoin(tmpDir, filename);
    if j.err.Some? then Err(j.err.value) else Ok(j.path)
  }

  // ---------------------------------------------------------------------

  lemma JoinLastChar(st: seq<string>)
    requires Names(st) && |st| >= 1
    ensures Join(st, Slash) != "" && Join(st, Slash)[|Join(st, Slash)| - 1] != '/'
  {
    if |st| > 1 {
      JoinLastChar(st[1..]);
      JoinCons(st[0], st[1..], Slash);
      assert st == [st[0]] + st[1..];
    }
  }

  // The directory written "/" + p1 + "/" + ... + "/" + pn for names p1..pn.
  function RootedDir(p: seq<string>): string
  {
    Slash + Join(p, Slash)
  }

  lemma SplitBelowDir(p: seq<string>, subdir: string)
    requires Names(p) && |p| >= 1
    ensures Split(RootedDir(p) + Slash + subdir, Slash) == [""] + p + Split(subdir, Slash)
  {
    var jp := Join(p, Slash);
    assert RootedDir(p) + Slash + subdir == "" + ['/'] + (jp + ['/'] + subdir);
    SplitAfterFree("", '/', jp + ['/'] + subdir);
    SplitJoinPrefix(p, '/', subdir);
  }

  lemma FoldBelowDir(p: seq<string>, parts: seq<string>)
    requires Names(p)
    ensures Fold(true, [], [""] + p + parts) == Fold(true, p, parts)
  {
    FoldAppend(true, [], [""] + p, parts);
    FoldAppend(true, [], [""], p);
    FoldSkipsEmpty(true, []);
    FoldNames(true, [], p);
    assert [] + p == p;
  }

  lemma CleanBelowDir(p: seq<string>, subdir: string)
    requires Names(p) && |p| >= 1
    ensures JoinPath([RootedDir(p), subdir]) == Slash + Join(Fold(true, p, Split(subdir, Slash)), Slash)
  {
    var x := RootedDir(p) + Slash + subdir;
    assert Join([RootedDir(p), subdir], Slash) == x;
    assert x[0] == '/';
    SplitBelowDir(p, subdir);
    FoldBelowDir(p, Split(subdir, Slash));
  }

  lemma SeparatorOfRootedDir(p: seq<string>)
    requires Names(p) && |p| >= 1
    ensures WithSeparator(RootedDir(p)) == RootedDir(p) + Slash
  {
    var jp := Join(p, Slash);
    JoinLastChar(p);
    assert RootedDir(p)[|RootedDir(p)| - 1] == jp[|jp| - 1];
  }

  lemma BelowDirNames(p: seq<string>, subdir: string)
    requires Names(p)
    ensures Names(Fold(true, p, Split(subdir, Slash)))
  {
    SplitPiecesSlashFree(subdir);
    assert NormalStack(true, p);
    FoldNormal(true, p, Split(subdir, Slash));
    RootedNormalNames(Fold(true, p, Split(subdir, Slash)));
  }

  // The joined path is the directory's elements with the sub-path's
  // elements applied to them as Clean does, and SafeJoin accepts it
  // exactly when these elements lie strictly below the directory's.
  lemma SafeJoinBelow(p: seq<string>, subdir: string)
    requires Names(p) && |p| >= 1
    ensures var r := Fold(true, p, Split(subdir, Slash));
      SafeJoin(RootedDir(p), subdir).path == Slash + Join(r, Slash) &&
      (SafeJoin(RootedDir(p), subdir).err.None? <==> StrictlyBelow(p, r))
  {
    CleanBelowDir(p, subdir);
    SeparatorOfRootedDir(p);
    BelowDirNames(p, subdir);
    PrefixIffBelow(p, Fold(true, p, Split(subdir, Slash)));
  }

  // A plain file name is joined below the directory and accepted
  // (utilities_test.go: TestSaveFileonTempDir).
  lemma PlainNameAccepted(p: seq<string>, name: string)
    requires Names(p) && |p| >= 1 && IsName(name)
    ensures SafeJoin(RootedDir(p), name) == Joined(RootedDir(p) + Slash + name, None)
    ensures SaveFileTarget(RootedDir(p), name) == Ok(RootedDir(p) + Slash + name)
  {
    PlainNameBelow(p, name);
    PlainNamePath(p, name);
  }

  lemma PlainNameBelow(p: seq<string>, name: string)
    requires Names(p) && |p| >= 1 && IsName(name)
    ensures SafeJoin(RootedDir(p), name).err.None?
    ensures SafeJoin(RootedDir(p), name).path == Slash + Join(p + [name], Slash)
  {
    SafeJoinBelow(p, name);
    SplitFree(name, '/');
    assert Split(name, Slash) == [name];
    FoldNames(true, p, [name]);
    assert (p + [name])[..|p|] == p;
  }

  lemma PlainNamePath(p: seq<string>, name: string)
    requires |p| >= 1
    ensures Slash + Join(p + [name], Slash) == RootedDir(p) + Slash + name
  {
    JoinAppend(p, [name], Slash);
    assert Join([name], Slash) == name;
  }

  // Sub-paths that climb out of the directory or stay at it are refused
  // (utilities_test.go: TestSaveFileonTempDirWithEvilName, and the
  // "payload containing evil names" cases of v2/pkgs/tools_test.go).
  lemma RootNameRejected(p: seq<string>)
    requires Names(p) && |p| >= 1
    ensures SafeJoin(RootedDir(p), "/").err.Some?
  {
    SafeJoinBelow(p, "/");
    assert "/" == "" + ['/'] + "";
    SplitAfterFree("", '/', "");
    SplitFree("", '/');
    assert Fold(true, p, ["", ""]) == Fold(true, p, [""]);
    FoldSkipsEmpty(true, p);
  }

  lemma ParentNameRejected(p: seq<string>)
    requires Names(p) && |p| >= 1
    ensures SafeJoin(RootedDir(p), "..").err.Some?
  {
    SafeJoinBelow(p, "..");
    SplitFree("..", '/');
    assert Dots(1) == [".."];
    FoldDotsRooted(p, 1);
  }

  lemma ParentSlashRejected(p: seq<string>)
    requires Names(p) && |p| >= 1
    ensures SafeJoin(RootedDir(p), "../").err.Some?
  {
    SafeJoinBelow(p, "../");
    assert "../" == ".." + ['/'] + "";
    SplitAfterFree("..", '/', "");
    SplitFree("", '/');
    FoldAppend(true, p, [".."], [""]);
    assert Dots(1) == [".."];
    FoldDotsRooted(p, 1);
    FoldSkipsEmpty(true, p[..|p| - 1]);
  }

  lemma SiblingRejected(p: seq<string>, name: string)
    requires Names(p) && |p| >= 1 && IsName(name)
    ensures SafeJoin(RootedDir(p), ".." + Slash + name).err.Some?
  {
    var sub := ".." + Slash + name;
    SafeJoinBelow(p, sub);
    assert sub == ".." + ['/'] + name;
    SplitAfterFree("..", '/', name);
    SplitFree(name, '/');
    assert Split(sub, Slash) == [".."] + [name];
    FoldAppend(true, p, [".."], [name]);
    assert Dots(1) == [".."];
    FoldDotsRooted(p, 1);
    FoldNames(true, p[..|p| - 1], [name]);
    assert |Fold(true, p, Split(sub, Slash))| == |p|;
  }

  lemma SiblingFileRejected(p: seq<string>)
    requires Names(p) && |p| >= 1
    ensures SafeJoin(RootedDir(p), "../evil.txt").err.Some?
  {
    assert "../evil.txt" == ".." + Slash + "evil.txt";
    SiblingRejected(p, "evil.txt");
  }

  // A chain of at least as many ".." as the directory has elements reaches
  // the root, and the names that follow are then judged from there: no
  // more of them than the directory has elements can land below it.
  lemma DeepClimbRejected(p: seq<string>, k: nat, n: seq<string>)
    requires Names(p) && |p| >= 1 && k >= |p|
    requires Names(n) && |n| <= |p|
    ensures SafeJoin(RootedDir(p), Join(Dots(k) + n, Slash)).err.Some?
  {
    var parts := Dots(k) + n;
    DotsThenNamesFree(k, n);
    SplitJoin(parts, '/');
    SafeJoinBelow(p, Join(parts, Slash));
    FoldAppend(true, p, Dots(k), n);
    FoldDotsRooted(p, k);
    assert p[..|p| - |p|] == [];
    FoldNames(true, [], n);
    assert Fold(true, p, parts) == n;
  }

  lemma DotsThenNamesFree(k: nat, n: seq<string>)
    requires Names(n)
    ensures FreeOf(Dots(k) + n, '/')
  {
    var parts := Dots(k) + n;
    forall i | 0 <= i < |parts|
      ensures '/' !in parts[i]
    {
      if i < k {
        assert parts[i] == "..";
      } else {
        assert parts[i] == n[i - k];
      }
    }
  }

  // The deep "../../…/tmp/evil.txt" test name against a directory two or
  // more levels deep, as a test's temporary directory is.
  lemma DeepTmpEvilRejected(p: seq<string>, k: nat)
    requires Names(p) && |p| >= 2 && k >= |p|
    ensures SafeJoin(RootedDir(p), Join(Dots(k) + ["tmp", "evil.txt"], Slash)).err.Some?
  {
    DeepClimbRejected(p, k, ["tmp", "evil.txt"]);
  }
}
