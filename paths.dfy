// Slash-separated path manipulation as Go's `path` and (on Unix)
// `path/filepath` packages perform it: Clean, Join, Dir, Base and Ext.
// Clean is the purely lexical normalisation: repeated separators and "."
// elements vanish and ".." removes the element before it.
module Paths {
  import opened Wrappers
  import opened GoStrings

  const Slash: string := "/"

  // A path element that names a directory entry.
  predicate IsName(e: string)
  {
    e != "" && e != "." && e != ".." && '/' !in e
  }

  predicate Names(st: seq<string>)
  {
    forall i :: 0 <= i < |st| ==> IsName(st[i])
  }

  // The shape of a cleaned path's elements: names, preceded by ".."
  // elements only when the path is relative.
  predicate NormalStack(rooted: bool, st: seq<string>)
  {
    forall i :: 0 <= i < |st| ==>
      (IsName(st[i]) || (st[i] == ".." && !rooted)) &&
      (st[i] == ".." ==> forall j :: 0 <= j < i ==> st[j] == "..")
  }

  function Dots(k: nat): (r: seq<string>)
    ensures |r| == k && forall i :: 0 <= i < k ==> r[i] == ".."
  {
    if k == 0 then [] else Dots(k - 1) + [".."]
  }

  // One element of the Clean scan applied to the elements kept so far.
  function Step(rooted: bool, st: seq<string>, e: string): seq<string>
  {
    if e == "" || e == "." then st
    else if e == ".." then
      if |st| > 0 && st[|st| - 1] != ".." then st[..|st| - 1]
      else if rooted then st
      else st + [".."]
    else st + [e]
  }

  function Fold(rooted: bool, st: seq<string>, es: seq<string>): seq<string>
    decreases |es|
  {
    if es == [] then st else Fold(rooted, Step(rooted, st, es[0]), es[1..])
  }

  function Render(rooted: bool, st: seq<string>): string
  {
    if rooted then Slash + Join(st, Slash)
    else if st == [] then "."
    else Join(st, Slash)
  }

  // path.Clean: never empty, and rooted exactly when the path is.
  function Clean(p: string): (r: string)
    ensures r != "" && (r[0] == '/' <==> p != "" && p[0] == '/')
  {
    if p == "" then "."
    else
      var rooted := p[0] == '/';
      var st := Fold(rooted, [], Split(p, Slash));
      SplitPiecesSlashFree(p);
      FoldNormal(rooted, [], Split(p, Slash));
      RenderHead(rooted, st);
      Render(rooted, st)
  }

  lemma RenderHead(rooted: bool, st: seq<string>)
    requires NormalStack(rooted, st)
    ensures var r := Render(rooted, st); r != "" && (r[0] == '/' <==> rooted)
  {
    if !rooted && st != [] {
      assert st[0] != "" && st[0][0] != '/';
      assert Join(st, Slash)[0] == st[0][0];
    }
  }

  // path.Join / filepath.Join: the non-empty elements joined by "/" and
  // cleaned; "" when every element is empty.
  function JoinPath(elems: seq<string>): (r: string)
    ensures r == "" <==> forall k :: 0 <= k < |elems| ==> elems[k] == ""
    decreases |elems|
  {
    if elems == [] then ""
    else if elems[0] != "" then Clean(Join(elems, Slash))
    else JoinPath(elems[1..])
  }

  // path.Dir / filepath.Dir: everything up to the last separator, cleaned;
  // never empty, and rooted exactly when the path is.
  function Dir(p: string): (r: string)
    ensures r != "" && (r[0] == '/' <==> p != "" && p[0] == '/')
  {
    match LastIndex(p, Slash)
    case None =>
      OccursChar(p, '/', 0);
      Clean("")
    case Some(i) => Clean(p[..i + 1])
  }

  function TrimTrailingSlashes(p: string): (r: string)
    ensures |r| <= |p| && r == p[..|r|]
    ensures r == [] || r[|r| - 1] != '/'
  {
    if p != [] && p[|p| - 1] == '/' then TrimTrailingSlashes(p[..|p| - 1]) else p
  }

  // path.Base / filepath.Base: the last element, with trailing separators
  // ignored; "." for the empty path and "/" for a path of separators only.
  function Base(p: string): (r: string)
    ensures r != ""
    ensures r == "/" || '/' !in r
  {
    if p == "" then "."
    else
      var t := TrimTrailingSlashes(p);
      if t == "" then "/"
      else match LastIndex(t, Slash)
        case None =>
          NoSlashFrom(t, 0);
          assert t[0..] == t;
          t
        case Some(i) =>
          NoSlashFrom(t, i + 1);
          t[i + 1..]
  }

  lemma NoSlashFrom(t: string, i: nat)
    requires i <= |t| && forall j: nat :: i <= j ==> !OccursAt(t, Slash, j)
    ensures '/' !in t[i..]
  {
    forall j | i <= j < |t| ensures t[j] != '/' {
      OccursChar(t, '/', j);
    }
  }

  // path.Ext / filepath.Ext: the suffix from the last '.' of the final
  // element, dot included, or "".
  function Ext(p: string): (r: string)
    ensures r == "" || (r[0] == '.' && HasSuffix(p, r) && '/' !in r)
    decreases |p|
  {
    if p == "" || p[|p| - 1] == '/' then ""
    else if p[|p| - 1] == '.' then [p[|p| - 1]]
    else
      var e := Ext(p[..|p| - 1]);
      if e == "" then "" else e + [p[|p| - 1]]
  }

  // ---------------------------------------------------------------------
  // Splitting at a single separator character.

  predicate FreeOf(parts: seq<string>, c: char)
  {
    forall i :: 0 <= i < |parts| ==> c !in parts[i]
  }

  lemma {:induction false} JoinAppend(p: seq<string>, q: seq<string>, sep: string)
    requires |p| >= 1 && |q| >= 1
    ensures Join(p + q, sep) == Join(p, sep) + sep + Join(q, sep)
    decreases |p|
  {
    assert (p + q)[0] == p[0];
    if |p| == 1 {
      assert (p + q)[1..] == q;
    } else {
      assert (p + q)[1..] == p[1..] + q;
      JoinAppend(p[1..], q, sep);
    }
  }

  lemma {:induction false} SplitJoinPrefix(p: seq<string>, c: char, rest: string)
    requires |p| >= 1 && FreeOf(p, c)
    ensures Split(Join(p, [c]) + [c] + rest, [c]) == p + Split(rest, [c])
    decreases |p|
  {
    if |p| == 1 {
      SplitAfterFree(p[0], c, rest);
    } else {
      JoinCons(p[0], p[1..], [c]);
      var tail := Join(p[1..], [c]) + [c] + rest;
      assert Join(p, [c]) + [c] + rest == p[0] + [c] + tail;
      SplitAfterFree(p[0], c, tail);
      SplitJoinPrefix(p[1..], c, rest);
      assert p == [p[0]] + p[1..];
    }
  }

  lemma SplitJoin(p: seq<string>, c: char)
    requires |p| >= 1 && FreeOf(p, c)
    ensures Split(Join(p, [c]), [c]) == p
  {
    if |p| == 1 {
      SplitFree(p[0], c);
    } else {
      JoinCons(p[0], p[1..], [c]);
      SplitAfterFree(p[0], c, Join(p[1..], [c]));
      SplitJoin(p[1..], c);
      assert p == [p[0]] + p[1..];
    }
  }

  lemma NamesFree(st: seq<string>)
    requires Names(st)
    ensures FreeOf(st, '/')
  {
  }

  // ---------------------------------------------------------------------
  // The Clean scan.

  lemma {:induction false} FoldAppend(rooted: bool, st: seq<string>, a: seq<string>, b: seq<string>)
    ensures Fold(rooted, st, a + b) == Fold(rooted, Fold(rooted, st, a), b)
    decreases |a|
  {
    if a != [] {
      assert (a + b)[0] == a[0] && (a + b)[1..] == a[1..] + b;
      FoldAppend(rooted, Step(rooted, st, a[0]), a[1..], b);
    } else {
      assert a + b == b;
    }
  }

  lemma {:induction false} FoldNames(rooted: bool, st: seq<string>, names: seq<string>)
    requires Names(names)
    ensures Fold(rooted, st, names) == st + names
    decreases |names|
  {
    if names != [] {
      FoldNames(rooted, st + [names[0]], names[1..]);
      assert st + [names[0]] + names[1..] == st + names;
    }
  }

  // Each ".." removes one name of a rooted path; at the root it is ignored.
  lemma {:induction false} FoldDotsRooted(st: seq<string>, k: nat)
    requires Names(st)
    ensures Fold(true, st, Dots(k)) == st[..|st| - (if k < |st| then k else |st|)]
    decreases k
  {
    if k > 0 {
      FoldAppend(true, st, Dots(k - 1), [".."]);
      FoldDotsRooted(st, k - 1);
    }
  }

  lemma StepNormal(rooted: bool, st: seq<string>, e: string)
    requires NormalStack(rooted, st) && '/' !in e
    ensures NormalStack(rooted, Step(rooted, st, e))
  {
  }

  lemma {:induction false} FoldNormal(rooted: bool, st: seq<string>, es: seq<string>)
    requires NormalStack(rooted, st) && FreeOf(es, '/')
    ensures NormalStack(rooted, Fold(rooted, st, es))
    decreases |es|
  {
    if es != [] {
      StepNormal(rooted, st, es[0]);
      FoldNormal(rooted, Step(rooted, st, es[0]), es[1..]);
    }
  }

  lemma {:induction false} SplitPiecesSlashFree(s: string)
    ensures FreeOf(Split(s, Slash), '/')
  {
    SplitPiecesFree(s, Slash);
    var parts := Split(s, Slash);
    forall i | 0 <= i < |parts| ensures '/' !in parts[i] {
      forall j | 0 <= j < |parts[i]| ensures parts[i][j] != '/' {
        OccursChar(parts[i], '/', j);
      }
    }
  }

  // A rooted cleaned path holds names only.
  lemma RootedNormalNames(st: seq<string>)
    requires NormalStack(true, st)
    ensures Names(st)
  {
  }

  // Cleaning an already clean element list changes nothing.
  lemma {:induction false} FoldOfNormal(rooted: bool, st: seq<string>)
    requires NormalStack(rooted, st)
    ensures Fold(rooted, [], st) == st
    decreases |st|
  {
    if st != [] {
      var init := st[..|st| - 1];
      var last := st[|st| - 1];
      assert NormalStack(rooted, init);
      FoldOfNormal(rooted, init);
      FoldAppend(rooted, [], init, [last]);
      assert Fold(rooted, init, [last]) == Step(rooted, init, last);
      assert Step(rooted, init, last) == init + [last];
      assert init + [last] == st;
    }
  }

  // ---------------------------------------------------------------------
  // Properties of Clean.

  lemma SplitRooted(st: seq<string>)
    requires Names(st)
    ensures Split(Slash + Join(st, Slash), Slash) == [""] + (if st == [] then [""] else st)
  {
    SplitAfterFree("", '/', Join(st, Slash));
    assert Slash + Join(st, Slash) == "" + ['/'] + Join(st, Slash);
    if st == [] {
      SplitFree("", '/');
    } else {
      SplitJoin(st, '/');
    }
  }

  // Clean is idempotent.
  lemma CleanIdempotent(p: string)
    ensures Clean(Clean(p)) == Clean(p)
  {
    if p == "" {
      CleanRendered(false, []);
    } else {
      var rooted := p[0] == '/';
      SplitPiecesSlashFree(p);
      FoldNormal(rooted, [], Split(p, Slash));
      CleanRendered(rooted, Fold(rooted, [], Split(p, Slash)));
    }
  }

  // Rendering a clean element list gives a path that Clean keeps.
  lemma CleanRendered(rooted: bool, st: seq<string>)
    requires NormalStack(rooted, st)
    ensures Clean(Render(rooted, st)) == Render(rooted, st)
  {
    if rooted {
      CleanRenderedRooted(st);
    } else if st == [] {
      SplitFree(".", '/');
      assert Fold(false, [], ["."]) == Fold(false, [], []);
    } else {
      CleanRenderedRelative(st);
    }
  }

  lemma CleanRenderedRooted(st: seq<string>)
    requires NormalStack(true, st)
    ensures Clean(Render(true, st)) == Render(true, st)
  {
    var q := Render(true, st);
    RootedNormalNames(st);
    SplitRooted(st);
    assert q[0] == '/';
    FoldAppend(true, [], [""], if st == [] then [""] else st);
    if st != [] { FoldOfNormal(true, st); }
  }

  lemma CleanRenderedRelative(st: seq<string>)
    requires NormalStack(false, st) && st != []
    ensures Clean(Render(false, st)) == Render(false, st)
  {
    assert FreeOf(st, '/');
    SplitJoin(st, '/');
    FoldOfNormal(false, st);
    assert st[0] != "";
    JoinFirstChar(st);
  }

  lemma JoinFirstChar(st: seq<string>)
    requires |st| >= 1 && st[0] != "" && '/' !in st[0]
    ensures Join(st, Slash) != "" && Join(st, Slash)[0] == st[0][0]
  {
    if |st| > 1 { JoinCons(st[0], st[1..], Slash); assert st == [st[0]] + st[1..]; }
  }

  // A rooted path written from names is already clean.
  lemma CleanOfNames(st: seq<string>)
    requires Names(st)
    ensures Clean(Slash + Join(st, Slash)) == Slash + Join(st, Slash)
  {
    var x := Slash + Join(st, Slash);
    SplitRooted(st);
    assert x[0] == '/';
    FoldSkipsEmpty(true, []);
    if st == [] {
      FoldAppend(true, [], [""], [""]);
    } else {
      FoldAppend(true, [], [""], st);
      FoldNames(true, [], st);
      assert Fold(true, [], Split(x, Slash)) == st;
    }
  }

  lemma FoldSkipsEmpty(rooted: bool, st: seq<string>)
    ensures Fold(rooted, st, [""]) == st
  {
    assert Fold(rooted, st, [""]) == Fold(rooted, st, []);
  }

  // The elements of `outer` strictly extend those of `inner`.
  predicate StrictlyBelow(inner: seq<string>, outer: seq<string>)
  {
    |inner| < |outer| && outer[..|inner|] == inner
  }

  // For rooted paths written from names, the textual test "starts with
  // the parent and a separator" holds exactly when the path lies strictly
  // below the parent element by element.
  lemma PrefixIffBelow(p: seq<string>, r: seq<string>)
    requires Names(p) && Names(r) && |p| >= 1
    ensures HasPrefix(Slash + Join(r, Slash), Slash + Join(p, Slash) + Slash) <==> StrictlyBelow(p, r)
  {
    if StrictlyBelow(p, r) { BelowGivesPrefix(p, r); }
    if HasPrefix(Slash + Join(r, Slash), Slash + Join(p, Slash) + Slash) { PrefixGivesBelow(p, r); }
  }

  lemma BelowGivesPrefix(p: seq<string>, r: seq<string>)
    requires |p| >= 1 && StrictlyBelow(p, r)
    ensures HasPrefix(Slash + Join(r, Slash), Slash + Join(p, Slash) + Slash)
  {
    var t := r[|p|..];
    assert r == p + t;
    JoinAppend(p, t, Slash);
  }

  lemma PrefixGivesBelow(p: seq<string>, r: seq<string>)
    requires Names(p) && Names(r) && |p| >= 1
    requires HasPrefix(Slash + Join(r, Slash), Slash + Join(p, Slash) + Slash)
    ensures StrictlyBelow(p, r)
  {
    var jp := Join(p, Slash);
    var x := Join(r, Slash);
    assert (Slash + jp + Slash)[1..] == jp + Slash;
    assert (Slash + x)[1..] == x;
    assert jp + Slash <= x;
    if |r| > 0 {
      var rest := x[|jp| + 1..];
      assert x == jp + ['/'] + rest;
      SplitJoin(r, '/');
      SplitJoinPrefix(p, '/', rest);
    }
  }
}
