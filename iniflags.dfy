// The INI flag-file reader vendored from github.com/vharitonsky/iniflags
// (vendor/github.com/vharitonsky/iniflags/iniflags.go): value quoting and
// unquoting, trailing comments, byte-order marks, import paths, and the
// line-by-line reader with its multi-line keys and its import stack.
// Setting the flags, SIGHUP handling, periodic reloads and fetching a
// configuration over HTTP are outside the model: the text of each
// configuration file is an input.
module IniFlags {
  import opened Wrappers
  import opened GoStrings
  import opened Paths
  import opened Bytes

  // ---------------------------------------------------------------------
  // stripBOM

  // The UTF-8 encodings of U+FEFF and U+FFFE, one character per byte.
  function BomFEFF(): string { ['\U{EF}', '\U{BB}', '\U{BF}'] }
  function BomFFFE(): string { ['\U{EF}', '\U{BF}', '\U{BE}'] }

  // stripBOM: the first three bytes go when they are one of the two byte
  // order marks; anything shorter than three bytes is kept as it is.
  function StripBOM(s: string): (r: string)
    ensures |s| >= 3 && (s[..3] == BomFEFF() || s[..3] == BomFFFE()) ==> r == s[3..]
    ensures !(|s| >= 3 && (s[..3] == BomFEFF() || s[..3] == BomFFFE())) ==> r == s
  {
    if |s| < 3 then s
    else
      var bom := s[..3];
      if bom == BomFEFF() || bom == BomFFFE() then s[3..] else s
  }

  // A text behind either mark comes back whole, and only one mark goes.
  lemma StripBOMOnce(t: string)
    ensures StripBOM(BomFEFF() + t) == t && StripBOM(BomFFFE() + t) == t
    ensures StripBOM(BomFEFF() + BomFEFF() + t) == BomFEFF() + t
  {
    assert (BomFEFF() + t)[..3] == BomFEFF() && (BomFEFF() + t)[3..] == t;
    assert (BomFFFE() + t)[..3] == BomFFFE() && (BomFFFE() + t)[3..] == t;
    var u := BomFEFF() + BomFEFF() + t;
    assert u[..3] == BomFEFF() && u[3..] == BomFEFF() + t;
  }

  // A text that does not start with the byte 0xEF is never changed.
  lemma StripBOMPlain(s: string)
    requires s == [] || s[0] != '\U{EF}'
    ensures StripBOM(s) == s
  {
    if |s| >= 3 {
      assert s[..3][0] == s[0];
    }
  }

  // ---------------------------------------------------------------------
  // Trailing comments

  // Every piece of a split of `s` holds only characters of `s`.
  lemma {:induction false} SplitPiecesWithout(s: string, sep: string, c: char)
    requires |sep| > 0 && c !in s
    ensures forall k :: 0 <= k < |Split(s, sep)| ==> c !in Split(s, sep)[k]
    decreases |s|
  {
    match Index(s, sep)
    case None =>
    case Some(i) =>
      var rest := s[i + |sep|..];
      assert forall j :: 0 <= j < |rest| ==> rest[j] == s[i + |sep| + j];
      SplitPiecesWithout(rest, sep, c);
      assert forall j :: 0 <= j < i ==> s[..i][j] == s[j];
  }

  // The first piece of a split holds no separator character.
  lemma FirstPieceWithout(s: string, c: char)
    ensures c !in Split(s, [c])[0]
  {
    SplitPiecesFree(s, [c]);
    NotContainsChar(Split(s, [c])[0], c);
  }

  lemma TrimSpaceWithout(s: string, c: char)
    requires c !in s
    ensures c !in TrimSpace(s)
  {
    var l := TrimLeftSet(s, Spaces);
    assert forall j :: 0 <= j < |l| ==> l[j] == s[|s| - |l| + j];
    var r := TrimRightSet(l, Spaces);
    assert forall j :: 0 <= j < |r| ==> r[j] == l[j];
  }

  // removeTrailingComments: the value cut at its first '#', then at its
  // first ';', with white space trimmed.
  function RemoveTrailingComments(v: string): (r: string)
    ensures '#' !in r && ';' !in r
    ensures '#' !in v && ';' !in v ==> r == TrimSpace(v)
  {
    var h := Split(v, "#")[0];
    var s := Split(h, ";")[0];
    FirstPieceWithout(v, '#');
    SplitPiecesWithout(h, ";", '#');
    FirstPieceWithout(h, ';');
    TrimSpaceWithout(s, '#');
    TrimSpaceWithout(s, ';');
    if '#' !in v && ';' !in v then
      SplitFree(v, '#');
      SplitFree(v, ';');
      TrimSpace(s)
    else TrimSpace(s)
  }

  // getTrailingComment: nothing for an empty or quoted text, otherwise the
  // text between the first and the second '#', or failing a '#', between
  // the first and the second ';'.
  function GetTrailingComment(v: string): (r: string)
    ensures v == [] || v[0] == '"' ==> r == ""
    ensures '#' !in r
  {
    if |v| == 0 then ""
    else if v[0] == '"' then ""
    else
      var s := Split(v, "#");
      SplitPiecesFree(v, "#");
      if |s| > 1 then
        NotContainsChar(s[1], '#');
        s[1]
      else
        assert Index(v, "#").None?;
        NotContainsChar(v, '#');
        var t := Split(v, ";");
        SplitPiecesWithout(v, ";", '#');
        if |t| > 1 then t[1] else ""
  }

  // "value # comment": the value is the trimmed text before the '#' and
  // the comment the text after it.
  lemma CommentAfterHash(a: string, c: string)
    requires '#' !in a && ';' !in a && '#' !in c
    requires a == [] || a[0] != '"'
    ensures RemoveTrailingComments(a + "#" + c) == TrimSpace(a)
    ensures GetTrailingComment(a + "#" + c) == c
  {
    SplitWords2(a, c, '#');
    SplitFree(a, ';');
  }

  // "value ; comment", in a text without '#'.
  lemma CommentAfterSemicolon(a: string, c: string)
    requires '#' !in a && ';' !in a && '#' !in c && ';' !in c
    requires a == [] || a[0] != '"'
    ensures RemoveTrailingComments(a + ";" + c) == TrimSpace(a)
    ensures GetTrailingComment(a + ";" + c) == c
  {
    var v := a + ";" + c;
    assert '#' !in v;
    SplitFree(v, '#');
    assert Split(v, "#") == [v];
    SplitWords2(a, c, ';');
    assert Split(v, ";") == [a, c];
    SplitFree(a, ';');
    assert Split(a, ";")[0] == a;
  }

  // A text with neither '#' nor ';' carries no comment.
  lemma NoComment(v: string)
    requires '#' !in v && ';' !in v
    ensures GetTrailingComment(v) == ""
  {
    SplitFree(v, '#');
    SplitFree(v, ';');
  }

  // ---------------------------------------------------------------------
  // quoteValue and unquoteValue

  const QuoteTriggers: set<char> := {'\n', '#', ';'}

  // quoteValue quotes a value that holds a newline, '#' or ';', or has
  // white space at either end.
  predicate NeedsQuotes(v: string)
  {
    ContainsAny(v, QuoteTriggers) || TrimSpace(v) != v
  }

  // \ first, then newline, then ". The escaped value is no shorter and
  // holds no newline, so it stays on its line.
  function Escape(v: string): (r: string)
    ensures |r| >= |v| && '\n' !in r
  {
    var e1 := ReplaceAll(v, "\\", "\\\\");
    var e2 := ReplaceAll(e1, "\n", "\\n");
    ReplaceAllLength(v, "\\", "\\\\");
    ReplaceAllLength(e1, "\n", "\\n");
    ReplaceAllLength(e2, "\"", "\\\"");
    ReplaceAllWithout(e1, "\n", "\\n", '\n');
    ReplaceAllWithout(e2, "\"", "\\\"", '\n');
    ReplaceAll(e2, "\"", "\\\"")
  }

  // \" first, then \n, then \\. Each replacement shortens.
  function Unescape(v: string): (r: string)
    ensures |r| <= |v|
  {
    var u1 := ReplaceAll(v, "\\\"", "\"");
    var u2 := ReplaceAll(u1, "\\n", "\n");
    ReplaceAllLength(v, "\\\"", "\"");
    ReplaceAllLength(u1, "\\n", "\n");
    ReplaceAllLength(u2, "\\\\", "\\");
    ReplaceAll(u2, "\\\\", "\\")
  }

  // quoteValue
  function QuoteValue(v: string): (r: string)
    ensures !NeedsQuotes(v) ==> r == v
    ensures NeedsQuotes(v) ==> |r| >= 2 && r[0] == '"' && r[|r| - 1] == '"' && r[1..|r| - 1] == Escape(v)
  {
    if !NeedsQuotes(v) then v
    else "\"" + Escape(v) + "\""
  }

  // A character fmt's %q writes as itself.
  predicate Printable(c: char)
  {
    ' ' <= c <= '~' && c != '"' && c != '\\'
  }

  function HexLower(n: nat): char
    requires n < 16
  {
    "0123456789abcdef"[n]
  }

  // The %q spelling of one character below U+0080.
  function QuoteChar(c: char): (r: string)
    ensures Printable(c) ==> r == [c]
  {
    if c == '"' then "\\\""
    else if c == '\\' then "\\\\"
    else if c == '\n' then "\\n"
    else if c == '\t' then "\\t"
    else if c == '\r' then "\\r"
    else if c == '\U{7}' then "\\a"
    else if c == '\U{8}' then "\\b"
    else if c == '\U{C}' then "\\f"
    else if c == '\U{B}' then "\\v"
    else if c < ' ' || c == '\U{7F}' then "\\x" + [HexLower(c as int / 16), HexLower(c as int % 16)]
    else [c]
  }

  function QuotedChars(v: string): string
  {
    if v == [] then [] else QuoteChar(v[0]) + QuotedChars(v[1..])
  }

  // fmt.Sprintf("%q", v)
  function GoQuote(v: string): (r: string)
    ensures |r| >= 2 && r[0] == '"' && r[|r| - 1] == '"'
  {
    "\"" + QuotedChars(v) + "\""
  }

  lemma {:induction false} QuotedPlain(v: string)
    requires forall i :: 0 <= i < |v| ==> Printable(v[i])
    ensures QuotedChars(v) == v
    decreases |v|
  {
    if v != [] {
      QuotedPlain(v[1..]);
      assert [v[0]] + v[1..] == v;
    }
  }

  datatype Unquote = Unquoted(value: string, comment: string) | Panics

  // Where a trimmed value opening with a quote has its last quote: never
  // missing, and at 0 exactly when no other quote follows.
  lemma LastQuote(v: string)
    requires v != [] && v[0] == '"'
    ensures LastIndex(v, "\"").Some?
    ensures LastIndex(v, "\"").value == 0 <==> '"' !in v[1..]
  {
    OccursChar(v, '"', 0);
    var n := LastIndex(v, "\"").value;
    OccursChar(v, '"', n);
    if '"' in v[1..] {
      var j :| 0 <= j < |v[1..]| && v[1..][j] == '"';
      OccursChar(v, '"', j + 1);
    }
  }

  // unquoteValue of a value whose trimmed text `v` opens with a quote.
  // A value that no other quote follows is cut as v[1:0], which panics;
  // the "unclosed string" error of the source cannot happen, as the
  // opening quote is always found.
  function UnquoteQuoted(val: string, v: string): (r: Unquote)
    requires v != [] && v[0] == '"'
    ensures r.Panics? <==> '"' !in v[1..]
  {
    LastQuote(v);
    var n := LastIndex(v, "\"").value;
    if n == 0 then Panics
    else
      var inner := Unescape(v[1..n]);
      Unquoted(inner, GetTrailingComment(ReplaceFirst(val, GoQuote(inner), "")))
  }

  // unquoteValue
  function UnquoteValue(val: string): (r: Unquote)
    ensures TrimSpace(val) == [] ==> r == Unquoted("", "")
    ensures TrimSpace(val) != [] && TrimSpace(val)[0] != '"' ==>
      r == Unquoted(RemoveTrailingComments(TrimSpace(val)), GetTrailingComment(TrimSpace(val)))
    ensures r.Panics? <==> TrimSpace(val) != [] && TrimSpace(val)[0] == '"' && '"' !in TrimSpace(val)[1..]
  {
    var v := TrimSpace(val);
    if |v| == 0 then Unquoted("", "")
    else if v[0] != '"' then Unquoted(RemoveTrailingComments(v), GetTrailingComment(v))
    else UnquoteQuoted(val, v)
  }

  // A value quoteValue leaves alone reads back as itself with no
  // comment, unless it opens with a quote.
  lemma PlainRoundTrip(v: string)
    requires !NeedsQuotes(v) && (v == [] || v[0] != '"')
    ensures UnquoteValue(QuoteValue(v)) == Unquoted(v, "")
  {
    if v != [] {
      assert '#' !in v && ';' !in v;
      NoComment(v);
    }
  }

  lemma TrimQuoted(q: string)
    requires |q| >= 2 && q[0] == '"' && q[|q| - 1] == '"'
    ensures TrimSpace(q) == q
  {
    assert TrimLeftSet(q, Spaces) == q;
  }

  lemma NoPattern(v: string, c: char, pat: string)
    requires |pat| >= 1 && pat[0] == c && c !in v
    ensures !Contains(v, pat)
  {
    MissingCharNotContained(v, pat, 0);
  }

  // A quoted value: the text between its quotes, unescaped, and the
  // comment left once the %q spelling of that text is taken out.
  lemma UnquoteWrapped(w: string)
    ensures var q := "\"" + w + "\""; var u := Unescape(w);
      UnquoteValue(q) == Unquoted(u, GetTrailingComment(ReplaceFirst(q, GoQuote(u), "")))
  {
    var q := "\"" + w + "\"";
    TrimQuoted(q);
    assert OccursAt(q, "\"", |q| - 1);
    assert LastIndex(q, "\"") == Some(|q| - 1);
    assert q[1..|q| - 1] == w;
    var u := Unescape(w);
    assert UnquoteQuoted(q, q) == Unquoted(u, GetTrailingComment(ReplaceFirst(q, GoQuote(u), "")));
  }

  lemma EscapeKeeps(v: string)
    requires '\\' !in v && '\n' !in v && '"' !in v
    ensures Escape(v) == v
  {
    NoPattern(v, '\\', "\\");
    ReplaceAllAbsent(v, "\\", "\\\\");
    NoPattern(v, '\n', "\n");
    ReplaceAllAbsent(v, "\n", "\\n");
    NoPattern(v, '"', "\"");
    ReplaceAllAbsent(v, "\"", "\\\"");
  }

  lemma UnescapeKeeps(v: string)
    requires '\\' !in v
    ensures Unescape(v) == v
  {
    NoPattern(v, '\\', "\\\"");
    ReplaceAllAbsent(v, "\\\"", "\"");
    NoPattern(v, '\\', "\\n");
    ReplaceAllAbsent(v, "\\n", "\n");
    NoPattern(v, '\\', "\\\\");
    ReplaceAllAbsent(v, "\\\\", "\\");
  }

  lemma PrintableFree(v: string)
    requires forall i :: 0 <= i < |v| ==> Printable(v[i])
    ensures '\\' !in v && '\n' !in v && '"' !in v
  {
    forall i | 0 <= i < |v| ensures v[i] != '\\' && v[i] != '\n' && v[i] != '"' {
      assert Printable(v[i]);
    }
  }

  // Taking a text out of itself leaves no comment.
  lemma SelfRemoved(q: string)
    ensures GetTrailingComment(ReplaceFirst(q, q, "")) == ""
  {
    assert q <= q;
    assert q[|q|..] == [];
  }

  // A value of printable characters other than \ and " that quoteValue
  // quotes reads back as itself with no comment.
  lemma QuotedRoundTrip(v: string)
    requires NeedsQuotes(v)
    requires forall i :: 0 <= i < |v| ==> Printable(v[i])
    ensures UnquoteValue(QuoteValue(v)) == Unquoted(v, "")
  {
    PrintableFree(v);
    EscapeKeeps(v);
    var q := "\"" + v + "\"";
    assert QuoteValue(v) == q;
    UnquoteWrapped(v);
    UnescapeKeeps(v);
    QuotedPlain(v);
    assert GoQuote(v) == q;
    SelfRemoved(q);
  }

  lemma EscapeBackslashN()
    ensures Escape(['\\', 'n', '#']) == ['\\', '\\', 'n', '#']
  {
    var v := ['\\', 'n', '#'];
    SplitAfterFree([], '\\', ['n', '#']);
    SplitFree(['n', '#'], '\\');
    assert [] + ['\\'] + ['n', '#'] == v;
    var e1 := ['\\', '\\', 'n', '#'];
    assert Join([[], ['n', '#']], "\\\\") == e1;
    assert ReplaceAll(v, "\\", "\\\\") == e1;
    NoPattern(e1, '\n', "\n");
    ReplaceAllAbsent(e1, "\n", "\\n");
    NoPattern(e1, '"', "\"");
    ReplaceAllAbsent(e1, "\"", "\\\"");
  }

  lemma UnescapeBackslashBackslashN()
    ensures Unescape(['\\', '\\', 'n', '#']) == ['\\', '\n', '#']
  {
    var e1 := ['\\', '\\', 'n', '#'];
    assert !Contains(e1, "\\\"") by {
      MissingCharNotContained(e1, "\\\"", 1);
    }
    ReplaceAllAbsent(e1, "\\\"", "\"");
    assert OccursAt(e1, "\\n", 1);
    assert !OccursAt(e1, "\\n", 0);
    assert Index(e1, "\\n") == Some(1);
    assert e1[..1] == ['\\'] && e1[3..] == ['#'];
    NoPattern(['#'], '\\', "\\n");
    assert Split(['#'], "\\n") == [['#']];
    assert Split(e1, "\\n") == [['\\'], ['#']];
    var u := ['\\', '\n', '#'];
    assert Join([['\\'], ['#']], "\n") == u;
    NoDoubleBackslash();
    ReplaceAllAbsent(u, "\\\\", "\\");
  }

  lemma NoDoubleBackslash()
    ensures !Contains(['\\', '\n', '#'], "\\\\")
  {
    var u := ['\\', '\n', '#'];
    assert u[0..2][1] != '\\' && u[1..3][0] != '\\';
    assert forall j: nat :: j >= 2 ==> !OccursAt(u, "\\\\", j);
  }

  lemma GoQuoteLength()
    ensures |GoQuote(['\\', '\n', '#'])| == 7
  {
    var u := ['\\', '\n', '#'];
    assert u[1..] == ['\n', '#'] && u[1..][1..] == ['#'] && u[1..][1..][1..] == [];
    assert QuotedChars(u) == "\\\\" + QuotedChars(u[1..]);
    assert QuotedChars(u[1..]) == "\\n" + QuotedChars(['#']);
    assert QuotedChars(['#']) == "#";
  }

  // The two characters \ and n are not given back: quoting doubles the
  // backslash, and unquoting turns \n into a newline before it halves
  // the backslashes.
  lemma BackslashNNotRestored()
    ensures UnquoteValue(QuoteValue(['\\', 'n', '#'])) == Unquoted(['\\', '\n', '#'], "")
  {
    var v := ['\\', 'n', '#'];
    assert v[2] in QuoteTriggers;
    assert NeedsQuotes(v);
    EscapeBackslashN();
    var e1 := ['\\', '\\', 'n', '#'];
    var q := "\"" + e1 + "\"";
    assert QuoteValue(v) == q;
    UnquoteWrapped(e1);
    UnescapeBackslashBackslashN();
    GoQuoteLength();
    assert Index(q, GoQuote(['\\', '\n', '#'])) == None;
  }

  // ---------------------------------------------------------------------
  // Import paths

  // isHTTP: http:// or https://, in any case.
  predicate IsHTTP(path: string)
  {
    HasPrefix(ToLower(path), "http://") || HasPrefix(ToLower(path), "https://")
  }

  // Lower-casing a path does not change whether it is an HTTP address.
  lemma IsHTTPFolds(path: string)
    ensures IsHTTP(ToLower(path)) == IsHTTP(path)
  {
    assert ToLower(ToLower(path)) == ToLower(path);
  }

  // combinePath. Against an HTTP base the address is resolved as a URL
  // reference by `resolve` (None for a URL that does not parse); an empty,
  // absolute or HTTP relPath is kept; anything else is joined to the
  // directory of the base.
  function CombinePath(resolve: (string, string) -> Option<string>, basePath: string, relPath: string)
    : (r: Option<string>)
    ensures IsHTTP(basePath) ==> r == resolve(basePath, relPath)
    ensures !IsHTTP(basePath) ==> r.Some?
    ensures !IsHTTP(basePath) && (relPath == [] || relPath[0] == '/' || IsHTTP(relPath)) ==> r == Some(relPath)
  {
    if IsHTTP(basePath) then resolve(basePath, relPath)
    else if relPath == "" || relPath[0] == '/' || IsHTTP(relPath) then Some(relPath)
    else Some(JoinPath([Dir(basePath), relPath]))
  }

  lemma RootedNotHTTP(p: string)
    requires p != [] && p[0] == '/'
    ensures !IsHTTP(p)
  {
    assert ToLower(p)[0] == '/';
    assert "http://"[0] == 'h' && "https://"[0] == 'h';
  }

  // An import of a name from a file of the root directory names the file
  // of that name beside it.
  lemma CombineSibling(resolve: (string, string) -> Option<string>, f: string, rel: string)
    requires IsName(f) && IsName(rel) && !IsHTTP(rel)
    ensures CombinePath(resolve, Slash + f, rel) == Some(Slash + rel)
  {
    var base := Slash + f;
    RootedNotHTTP(base);
    assert rel[0] != '/';
    assert OccursAt(base, Slash, 0);
    forall j: nat | 0 < j
      ensures !OccursAt(base, Slash, j)
    {
      if j < |base| {
        assert base[j] == f[j - 1];
        OccursChar(base, '/', j);
      }
    }
    assert LastIndex(base, Slash) == Some(0);
    assert base[..1] == Slash;
    assert Dir(base) == Clean(Slash);
    assert Slash == Slash + Join([], Slash);
    CleanOfNames([]);
    assert Join([Slash, rel], Slash) == Slash + Slash + rel;
    CleanDoubled(rel);
  }

  lemma CleanDoubled(rel: string)
    requires IsName(rel)
    ensures Clean(Slash + Slash + rel) == Slash + rel
  {
    var p := Slash + Slash + rel;
    assert p == [] + ['/'] + ([] + ['/'] + rel);
    SplitAfterFree([], '/', [] + ['/'] + rel);
    SplitAfterFree([], '/', rel);
    SplitFree(rel, '/');
    assert Split(p, Slash) == ["", "", rel];
    assert Fold(true, [], ["", "", rel]) == [rel] by {
      assert ["", "", rel] == [""] + ["", rel];
      FoldAppend(true, [], [""], ["", rel]);
      assert ["", rel] == [""] + [rel];
      FoldAppend(true, Fold(true, [], [""]), [""], [rel]);
    }
    assert Slash + rel == Slash + Join([rel], Slash);
    CleanOfNames([rel]);
    SplitRooted([rel]);
  }
}
