// The archive helpers of the v1 tools downloader (tools/download.go):
// the common directory of an archive's entries, the removal of one entry
// name from a list in place, the base directory an archive unpacks to,
// and the tool search, which is the v2 one without its found flag.
module Download {
  import opened Wrappers
  import Bytes
  import opened GoStrings
  import opened Paths
  import Pkgs

  // ---------------------------------------------------------------------
  // commonPrefix

  // The longest common prefix of two strings.
  function Lcp(a: string, b: string): (r: string)
    ensures r <= a && r <= b
    ensures |r| == |a| || |r| == |b| || a[|r|] != b[|r|]
    decreases |a|
  {
    if a == [] || b == [] || a[0] != b[0] then []
    else [a[0]] + Lcp(a[1..], b[1..])
  }

  // Every common prefix of a and b is a prefix of Lcp(a, b).
  lemma {:induction false} LcpLongest(a: string, b: string, q: string)
    requires q <= a && q <= b
    ensures q <= Lcp(a, b)
    decreases |a|
  {
    if q != [] {
      assert a[0] == q[0] == b[0];
      LcpLongest(a[1..], b[1..], q[1..]);
    }
  }

  // The first k characters of a and b agree and the (k+1)th does not, or
  // one of them ends there: the common prefix is a[..k].
  lemma LcpAt(a: string, b: string, k: nat)
    requires k <= |a| && k <= |b| && a[..k] == b[..k]
    requires k == |a| || k == |b| || a[k] != b[k]
    ensures Lcp(a, b) == a[..k]
  {
    var r := Lcp(a, b);
    assert a[..k] <= a && a[..k] <= b;
    LcpLongest(a, b, a[..k]);
  }

  // The cleaned paths with a trailing separator each, as the loop
  // compares them.
  function Slashed(paths: seq<string>, sep: char): (ws: seq<string>)
    ensures |ws| == |paths|
    ensures forall j :: 0 <= j < |paths| ==> ws[j] == Clean(paths[j]) + [sep]
  {
    seq(|paths|, j requires 0 <= j < |paths| => Clean(paths[j]) + [sep])
  }

  // The prefix left after the loop over the slashed paths, from c.
  function Folded(c: string, ws: seq<string>): (r: string)
    decreases |ws|
  {
    if ws == [] then c
    else Lcp(Folded(c, ws[..|ws| - 1]), ws[|ws| - 1])
  }

  // The position of the last separator, if any.
  function LastSep(c: string, sep: char): (r: Option<nat>)
    ensures r.Some? ==> r.value < |c| && c[r.value] == sep && forall k :: r.value < k < |c| ==> c[k] != sep
    ensures r.None? ==> sep !in c
    decreases |c|
  {
    if c == [] then None
    else if c[|c| - 1] == sep then Some(|c| - 1)
    else LastSep(c[..|c| - 1], sep)
  }

  function CutLastSep(c: string, sep: char): (r: string)
  {
    match LastSep(c, sep)
    case None => c
    case Some(i) => c[..i]
  }

  // commonPrefix: "" for no paths, the cleaned path for one; otherwise
  // the longest common prefix of every cleaned path with a separator
  // appended, cut at its last separator when it holds one.
  function CommonPrefixOf(sep: char, paths: seq<string>): string
  {
    if |paths| == 0 then ""
    else if |paths| == 1 then Clean(paths[0])
    else
      var ws := Slashed(paths, sep);
      CutLastSep(Folded(ws[0], ws[1..]), sep)
  }

  // One pass of the inner loop: c is cut to v's length, then at the first
  // character where the two differ.
  method Narrow(c: string, v: string) returns (r: string)
    ensures r == Lcp(c, v)
  {
    r := c;
    if |v| < |r| {
      r := r[..|v|];
    }
    var i := 0;
    while i < |r|
      invariant 0 <= i <= |r| <= |v| && r == c[..|r|]
      invariant r[..i] == v[..i]
    {
      if v[i] != r[i] {
        r := r[..i];
        break;
      }
      i := i + 1;
    }
    LcpAt(c, v, |r|);
  }

  // The backward loop: c is cut at its last separator, if it has one.
  method CutAtLastSep(c: string, sep: char) returns (r: string)
    ensures r == CutLastSep(c, sep)
  {
    r := c;
    var i := |r| - 1;
    while i >= 0
      invariant -1 <= i < |r| && r == c
      invariant forall k :: i < k < |r| ==> r[k] != sep
    {
      if r[i] == sep {
        r := r[..i];
        return;
      }
      i := i - 1;
    }
  }

  // The loop's step: one more slashed path narrows the prefix.
  lemma FoldedStep(ws: seq<string>, n: nat)
    requires 1 <= n < |ws|
    ensures Folded(ws[0], ws[1..n + 1]) == Lcp(Folded(ws[0], ws[1..n]), ws[n])
  {
    assert ws[1..n + 1][..n - 1] == ws[1..n];
  }

  method CommonPrefix(sep: char, paths: seq<string>) returns (r: string)
    ensures r == CommonPrefixOf(sep, paths)
  {
    if |paths| == 0 {
      return "";
    } else if |paths| == 1 {
      return Clean(paths[0]);
    }
    ghost var ws := Slashed(paths, sep);
    var c := Clean(paths[0]);
    c := c + [sep];
    assert c == ws[0];
    var n := 1;
    while n < |paths|
      invariant 1 <= n <= |paths|
      invariant c == Folded(ws[0], ws[1..n])
    {
      var v := Clean(paths[n]) + [sep];
      assert v == ws[n];
      c := Narrow(c, v);
      FoldedStep(ws, n);
      n := n + 1;
    }
    Bytes.SliceToEnd(ws, 1);
    r := CutAtLastSep(c, sep);
  }

  // The loop's prefix is a prefix of where it started and of every
  // slashed path.
  lemma {:induction false} FoldedPrefix(c: string, ws: seq<string>)
    ensures Folded(c, ws) <= c
    ensures forall j :: 0 <= j < |ws| ==> Folded(c, ws) <= ws[j]
    decreases |ws|
  {
    if ws != [] {
      var init := ws[..|ws| - 1];
      FoldedPrefix(c, init);
      assert forall j :: 0 <= j < |init| ==> ws[j] == init[j];
    }
  }

  // And it is the longest such prefix.
  lemma {:induction false} FoldedLongest(c: string, ws: seq<string>, q: string)
    requires q <= c
    requires forall j :: 0 <= j < |ws| ==> q <= ws[j]
    ensures q <= Folded(c, ws)
    decreases |ws|
  {
    if ws != [] {
      var init := ws[..|ws| - 1];
      assert forall j :: 0 <= j < |init| ==> init[j] == ws[j];
      FoldedLongest(c, init, q);
      LcpLongest(Folded(c, init), ws[|ws| - 1], q);
    }
  }

  // For two or more paths the result is a prefix of every cleaned path
  // with a separator; when the common prefix held a separator, the result
  // followed by that separator is one too.
  lemma CommonPrefixOfAll(sep: char, paths: seq<string>)
    requires |paths| >= 2
    ensures var ws := Slashed(paths, sep);
      var c := Folded(ws[0], ws[1..]);
      var r := CommonPrefixOf(sep, paths);
      forall j :: 0 <= j < |paths| ==>
        r <= ws[j] && (sep in c ==> r + [sep] <= ws[j])
  {
    var ws := Slashed(paths, sep);
    var c := Folded(ws[0], ws[1..]);
    FoldedPrefix(ws[0], ws[1..]);
    assert forall j :: 1 <= j < |ws| ==> ws[j] == ws[1..][j - 1];
    forall j | 0 <= j < |paths|
      ensures CutLastSep(c, sep) <= ws[j] && (sep in c ==> CutLastSep(c, sep) + [sep] <= ws[j])
    {
      CutPrefix(c, sep, ws[j]);
    }
  }

  lemma CutPrefix(c: string, sep: char, w: string)
    requires c <= w
    ensures CutLastSep(c, sep) <= w
    ensures sep in c ==> CutLastSep(c, sep) + [sep] <= w
  {
    match LastSep(c, sep)
    case None =>
    case Some(i) =>
      assert c[..i] + [sep] == c[..i + 1];
  }

  // ---------------------------------------------------------------------
  // removeStringFromSlice

  // The list without the first occurrence of r.
  function Removed(s: seq<string>, r: string): (t: seq<string>)
  {
    if s == [] then []
    else if s[0] == r then s[1..]
    else [s[0]] + Removed(s[1..], r)
  }

  // Exactly one copy of r goes, and nothing at all when r is absent.
  lemma {:induction false} RemovedSpec(s: seq<string>, r: string)
    ensures r !in s ==> Removed(s, r) == s
    ensures r in s ==> multiset(Removed(s, r)) == multiset(s) - multiset{r}
  {
    if s != [] {
      assert s == [s[0]] + s[1..];
      if s[0] != r {
        RemovedSpec(s[1..], r);
      }
    }
  }

  lemma {:induction false} RemovedAt(s: seq<string>, r: string, i: nat)
    requires i < |s| && s[i] == r && r !in s[..i]
    ensures Removed(s, r) == s[..i] + s[i + 1..]
  {
    if i > 0 {
      assert s[0] in s[..i];
      RemovedAt(s[1..], r, i - 1);
      assert s[1..][..i - 1] == s[1..i];
      assert s[..i] == [s[0]] + s[1..i];
      assert s[1..][i..] == s[i + 1..];
    }
  }

  // The tail of the first n slots moves one slot to the left from i on;
  // slot n - 1 and the slots after it keep their values.
  method ShiftLeft(a: array<string>, i: nat, n: nat)
    requires i < n <= a.Length
    modifies a
    ensures forall j :: 0 <= j < i ==> a[j] == old(a[j])
    ensures forall j :: i <= j < n - 1 ==> a[j] == old(a[j + 1])
    ensures forall j :: n - 1 <= j < a.Length ==> a[j] == old(a[j])
  {
    var k := i;
    while k < n - 1
      invariant i <= k <= n - 1
      invariant forall j :: 0 <= j < i ==> a[j] == old(a[j])
      invariant forall j :: i <= j < k ==> a[j] == old(a[j + 1])
      invariant forall j :: k <= j < a.Length ==> a[j] == old(a[j])
    {
      a[k] := a[k + 1];
      k := k + 1;
    }
  }

  // removeStringFromSlice on the first n slots of the backing array: the
  // first occurrence is shifted out, leaving the last slot as it was, and
  // the length shrinks by one; the array is untouched when r is absent.
  method RemoveString(a: array<string>, n: nat, r: string) returns (len: nat)
    requires n <= a.Length
    modifies a
    ensures len <= n
    ensures a[..len] == Removed(old(a[..n]), r)
    ensures len == if r in old(a[..n]) then n - 1 else n
    ensures forall j :: len <= j < a.Length ==> a[j] == old(a[j])
  {
    var i := 0;
    while i < n
      invariant 0 <= i <= n
      invariant r !in a[..i]
    {
      if a[i] == r {
        ghost var s := a[..n];
        RemovedAt(s, r, i);
        ShiftLeft(a, i, n);
        Shifted(s, a[..n - 1], i);
        return n - 1;
      }
      i := i + 1;
    }
    assert a[..n] == a[..i];
    RemovedSpec(a[..n], r);
    return n;
  }

  // Slot i dropped, the later slots moved one to the left.
  lemma Shifted<T>(x: seq<T>, y: seq<T>, i: nat)
    requires i < |x| && |y| == |x| - 1
    requires forall j :: 0 <= j < i ==> y[j] == x[j]
    requires forall j :: i <= j < |y| ==> y[j] == x[j + 1]
    ensures y == x[..i] + x[i + 1..]
  {
  }

  // ---------------------------------------------------------------------
  // findBaseDir

  function PaxHeader(): string { "pax_global_header" }

  // findBaseDir: a single entry gives its directory; otherwise the
  // "pax_global_header" entry is dropped and the common prefix, when not
  // empty, is given a trailing separator.
  function BaseDir(entries: seq<string>): (r: string)
    ensures r == "" || r[|r| - 1] == '/'
  {
    if |entries| == 1 then Dir(entries[0]) + "/"
    else
      var c := CommonPrefixOf('/', Removed(entries, PaxHeader()));
      if c != "" then c + "/" else ""
  }

  method FindBaseDir(dirList: array<string>) returns (r: string)
    modifies dirList
    ensures r == BaseDir(old(dirList[..]))
  {
    if dirList.Length == 1 {
      return Dir(dirList[0]) + "/";
    }
    assert dirList[..dirList.Length] == dirList[..];
    var len := RemoveString(dirList, dirList.Length, PaxHeader());
    var c := CommonPrefix('/', dirList[..len]);
    if c != "" {
      c := c + "/";
    }
    r := c;
  }

  // A word folded with one it is a prefix of stays.
  lemma FoldedPrefix2(a: string, b: string)
    requires a <= b
    ensures Folded(a, [b]) == a
  {
    LcpAt(a, b, |a|);
    assert [b][..0] == [];
  }

  // A directory name written with a trailing separator cleans to the name.
  lemma CleanDirectory(d: string)
    requires IsName(d)
    ensures Clean(d + "/") == d
  {
    SplitAfterFree(d, '/', "");
    SplitFree("", '/');
    assert d + "/" == d + ['/'] + "";
    assert Split(d + "/", Slash) == [d, ""];
    assert (d + "/")[0] == d[0] != '/';
    assert Step(false, [], d) == [d];
    assert [d, ""][1..] == [""];
    assert Fold(false, [d], [""]) == [d];
    assert Fold(false, [], [d, ""]) == [d];
  }

  lemma CleanName(d: string)
    requires IsName(d)
    ensures Clean(d) == d
  {
    SplitFree(d, '/');
    assert d[0] != '/';
    assert Fold(false, [], [d]) == [d];
  }

  lemma CleanFile(d: string, f: string)
    requires IsName(d) && IsName(f)
    ensures Clean(d + "/" + f) == d + "/" + f
  {
    SplitWords2(d, f, '/');
    assert d + "/" + f == d + ['/'] + f;
    assert (d + "/" + f)[0] == d[0] != '/';
    assert Split(d + "/" + f, Slash) == [d, f];
    FoldNames(false, [], [d, f]);
    assert Fold(false, [], [d, f]) == [d, f];
    assert Render(false, [d, f]) == Join([d, f], Slash) == d + "/" + f;
  }

  // A directory entry and a file inside it have the directory as their
  // common prefix, and neither is the pax header.
  lemma DirectoryAndFilePrefix(d: string, f: string)
    requires IsName(d) && IsName(f)
    ensures PaxHeader() !in [d + "/", d + "/" + f]
    ensures CommonPrefixOf('/', [d + "/", d + "/" + f]) == d
  {
    var paths := [d + "/", d + "/" + f];
    assert (d + "/")[|d|] == '/' && '/' !in PaxHeader();
    assert (d + "/" + f)[|d|] == '/';
    DirectoryPrefix(d, f);
  }

  lemma DirectoryPrefix(d: string, f: string)
    requires IsName(d) && IsName(f)
    ensures CommonPrefixOf('/', [d + "/", d + "/" + f]) == d
  {
    var paths := [d + "/", d + "/" + f];
    CleanDirectory(d);
    CleanFile(d, f);
    var ws := Slashed(paths, '/');
    var c0 := ws[0];
    assert c0 == d + "/" && ws[1] == d + "/" + f + "/";
    assert ws[1..] == [ws[1]];
    FoldedPrefix2(c0, ws[1]);
    assert LastSep(c0, '/') == Some(|d|);
  }

  // A directory entry and a file inside it: the directory, with its
  // separator (download_test.go: "bin/", "bin/bossac").
  lemma DirectoryAndFile(d: string, f: string)
    requires IsName(d) && IsName(f)
    ensures BaseDir([d + "/", d + "/" + f]) == d + "/"
  {
    var paths := [d + "/", d + "/" + f];
    DirectoryAndFilePrefix(d, f);
    RemovedSpec(paths, PaxHeader());
  }

  // With the "pax_global_header" entry first, the same directory.
  lemma PaxHeaderIgnored(d: string, f: string)
    requires IsName(d) && IsName(f)
    ensures BaseDir([PaxHeader(), d + "/", d + "/" + f]) == d + "/"
  {
    var s := [PaxHeader(), d + "/", d + "/" + f];
    assert s[1..] == [d + "/", d + "/" + f];
    assert Removed(s, PaxHeader()) == s[1..];
    DirectoryAndFilePrefix(d, f);
  }

  // An entry that shares no first character with the others leaves no
  // common directory (download_test.go: "bin/", "bin/bossac", "example").
  lemma UnrelatedEntry(d: string, f: string, e: string)
    requires IsName(d) && IsName(f) && IsName(e) && d[0] != e[0] && e != PaxHeader()
    ensures BaseDir([d + "/", d + "/" + f, e]) == ""
  {
    var paths := [d + "/", d + "/" + f, e];
    assert PaxHeader() !in paths by {
      assert (d + "/")[|d|] == '/' && '/' !in PaxHeader();
      assert (d + "/" + f)[|d|] == '/';
    }
    RemovedSpec(paths, PaxHeader());
    UnrelatedPrefix(d, f, e);
  }

  lemma UnrelatedPrefix(d: string, f: string, e: string)
    requires IsName(d) && IsName(e) && d[0] != e[0]
    ensures CommonPrefixOf('/', [d + "/", d + "/" + f, e]) == ""
  {
    CleanName(e);
    CleanDirectory(d);
    var ws := Slashed([d + "/", d + "/" + f, e], '/');
    assert ws[1..] == [ws[1], ws[2]];
    assert ws[0][0] == d[0] && ws[2][0] == e[0];
    FoldedNoCommon(ws[0], ws[1], ws[2]);
  }

  // Three words of which the first and the last differ at once share
  // nothing.
  lemma FoldedNoCommon(a: string, b: string, c: string)
    requires a != [] && c != [] && a[0] != c[0]
    ensures Folded(a, [b, c]) == []
  {
    assert [b, c][..1] == [b] && [b][..0] == [];
    var c1 := Lcp(a, b);
    assert Folded(a, [b]) == c1;
    assert c1 == [] || c1[0] == a[0];
  }

  // A single entry gives its directory (download_test.go: "bin/bossac").
  lemma SingleEntry(d: string, f: string)
    requires IsName(d) && IsName(f)
    ensures BaseDir([d + "/" + f]) == d + "/"
  {
    var p := d + "/" + f;
    assert OccursAt(p, Slash, |d|);
    forall j: nat | |d| < j < |p|
      ensures p[j] != '/'
    {
      assert p[j] == f[j - |d| - 1];
    }
    assert forall j: nat :: |d| < j ==> !OccursAt(p, Slash, j) by {
      forall j: nat | |d| < j
        ensures !OccursAt(p, Slash, j)
      {
        if j + 1 <= |p| {
          assert p[j..j + 1][0] == p[j];
        }
      }
    }
    assert LastIndex(p, Slash) == Some(|d|);
    assert p[..|d| + 1] == d + "/";
    CleanDirectory(d);
  }

  // ---------------------------------------------------------------------
  // findTool

  // findTool: the v2 search, whose found flag it does not return.
  method FindTool(pack: string, name: string, version: string, data: Pkgs.Index,
                  newer: (string, string) -> bool, flavour: Pkgs.Tool -> Pkgs.System)
    returns (tool: Pkgs.Tool, system: Pkgs.System)
    ensures tool == Pkgs.Search(Pkgs.Offered(data.packages, pack), name, version, newer).0
    ensures system == flavour(tool)
  {
    var found;
    tool, system, found := Pkgs.FindTool(pack, name, version, data, newer, flavour);
  }
}
