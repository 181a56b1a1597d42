// The behaviour of the parts of Go's `strings` package that the agent's
// command parsing and template substitution rely on, on strings seen as
// sequences of characters (one character per byte wherever bytes matter).
module GoStrings {
  import opened Wrappers

  // `sub` occurs in `s` starting at position `i`.
  predicate OccursAt(s: string, sub: string, i: nat)
  {
    i + |sub| <= |s| && s[i..i + |sub|] == sub
  }

  lemma OccursShift(s: string, sub: string, j: nat)
    requires |s| > 0
    ensures OccursAt(s, sub, j + 1) <==> OccursAt(s[1..], sub, j)
  {
    if j + 1 + |sub| <= |s| {
      assert s[1..][j..j + |sub|] == s[j + 1..j + 1 + |sub|];
    }
  }

  // strings.Index: the first position at which `sub` occurs.
  function Index(s: string, sub: string): (r: Option<nat>)
    ensures r.Some? ==> OccursAt(s, sub, r.value)
    ensures r.Some? ==> forall j: nat :: j < r.value ==> !OccursAt(s, sub, j)
    ensures r.None? ==> forall j: nat :: !OccursAt(s, sub, j)
    decreases |s|
  {
    if |s| < |sub| then None
    else if sub <= s then
      assert s[0..|sub|] == sub;
      Some(0)
    else
      match Index(s[1..], sub)
      case None =>
        assert forall j: nat :: !OccursAt(s, sub, j) by {
          forall j: nat ensures !OccursAt(s, sub, j) {
            if j > 0 { OccursShift(s, sub, j - 1); }
          }
        }
        None
      case Some(k) =>
        OccursShift(s, sub, k);
        assert forall j: nat :: j < k + 1 ==> !OccursAt(s, sub, j) by {
          forall j: nat | j < k + 1 ensures !OccursAt(s, sub, j) {
            if j > 0 { OccursShift(s, sub, j - 1); }
          }
        }
        Some(k + 1)
  }

  // strings.Contains
  predicate Contains(s: string, sub: string)
  {
    Index(s, sub).Some?
  }

  // strings.LastIndex: the last position at which `sub` occurs.
  function LastIndex(s: string, sub: string): (r: Option<nat>)
    ensures r.Some? ==> OccursAt(s, sub, r.value)
    ensures r.Some? ==> forall j: nat :: r.value < j ==> !OccursAt(s, sub, j)
    ensures r.None? ==> forall j: nat :: !OccursAt(s, sub, j)
    decreases |s|
  {
    if |s| < |sub| then None
    else if OccursAt(s, sub, |s| - |sub|) then Some(|s| - |sub|)
    else
      var r := LastIndex(s[..|s| - 1], sub);
      assert forall j: nat :: j + |sub| <= |s| - 1 ==> (OccursAt(s, sub, j) <==> OccursAt(s[..|s| - 1], sub, j)) by {
        forall j: nat | j + |sub| <= |s| - 1
          ensures OccursAt(s, sub, j) <==> OccursAt(s[..|s| - 1], sub, j)
        {
          assert s[..|s| - 1][j..j + |sub|] == s[j..j + |sub|];
        }
      }
      r
  }

  predicate HasPrefix(s: string, prefix: string)
  {
    prefix <= s
  }

  predicate HasSuffix(s: string, suffix: string)
  {
    |suffix| <= |s| && s[|s| - |suffix|..] == suffix
  }

  // strings.TrimPrefix
  function TrimPrefix(s: string, prefix: string): (r: string)
    ensures HasPrefix(s, prefix) ==> s == prefix + r
    ensures !HasPrefix(s, prefix) ==> r == s
  {
    if HasPrefix(s, prefix) then s[|prefix|..] else s
  }

  // strings.TrimSuffix
  function TrimSuffix(s: string, suffix: string): (r: string)
    ensures HasSuffix(s, suffix) ==> s == r + suffix
    ensures !HasSuffix(s, suffix) ==> r == s
  {
    if HasSuffix(s, suffix) then s[..|s| - |suffix|] else s
  }

  // strings.Join
  function Join(parts: seq<string>, sep: string): string
  {
    if |parts| == 0 then ""
    else if |parts| == 1 then parts[0]
    else parts[0] + sep + Join(parts[1..], sep)
  }

  // strings.Split for a non-empty separator: the text between consecutive
  // occurrences of `sep`, scanning from the left.
  function Split(s: string, sep: string): (r: seq<string>)
    requires |sep| > 0
    ensures |r| >= 1
    decreases |s|
  {
    match Index(s, sep)
    case None => [s]
    case Some(i) => [s[..i]] + Split(s[i + |sep|..], sep)
  }

  // strings.SplitN with n >= 1: at most n pieces, the last one holding the
  // rest of the string unsplit.
  function SplitN(s: string, sep: string, n: nat): (r: seq<string>)
    requires |sep| > 0 && n >= 1
    ensures 1 <= |r| <= n
    decreases n
  {
    if n == 1 then [s]
    else
      match Index(s, sep)
      case None => [s]
      case Some(i) => [s[..i]] + SplitN(s[i + |sep|..], sep, n - 1)
  }

  lemma JoinCons(head: string, tail: seq<string>, sep: string)
    requires |tail| >= 1
    ensures Join([head] + tail, sep) == head + sep + Join(tail, sep)
  {
    assert ([head] + tail)[1..] == tail;
  }

  // Cutting `s` at an occurrence of `sep` and gluing it back gives `s`.
  lemma CutAt(s: string, sep: string, i: nat)
    requires OccursAt(s, sep, i)
    ensures s == s[..i] + sep + s[i + |sep|..]
  {
    assert s == s[..i] + s[i..i + |sep|] + s[i + |sep|..];
  }

  lemma {:induction false} JoinSplit(s: string, sep: string)
    requires |sep| > 0
    ensures Join(Split(s, sep), sep) == s
    decreases |s|
  {
    var idx := Index(s, sep);
    if idx.Some? {
      var i := idx.value;
      var rest := s[i + |sep|..];
      JoinSplit(rest, sep);
      JoinCons(s[..i], Split(rest, sep), sep);
      CutAt(s, sep, i);
    }
  }

  lemma {:induction false} JoinSplitN(s: string, sep: string, n: nat)
    requires |sep| > 0 && n >= 1
    ensures Join(SplitN(s, sep, n), sep) == s
    decreases n
  {
    var idx := Index(s, sep);
    if n > 1 && idx.Some? {
      var i := idx.value;
      var rest := s[i + |sep|..];
      JoinSplitN(rest, sep, n - 1);
      JoinCons(s[..i], SplitN(rest, sep, n - 1), sep);
      CutAt(s, sep, i);
    }
  }

  // No piece of a split holds the separator.
  lemma {:induction false} SplitPiecesFree(s: string, sep: string)
    requires |sep| > 0
    ensures forall k :: 0 <= k < |Split(s, sep)| ==> !Contains(Split(s, sep)[k], sep)
    decreases |s|
  {
    match Index(s, sep)
    case None =>
    case Some(i) =>
      var rest := s[i + |sep|..];
      SplitPiecesFree(rest, sep);
      PrefixBeforeFirstFree(s, sep, i);
  }

  lemma PrefixBeforeFirstFree(s: string, sep: string, i: nat)
    requires |sep| > 0 && i <= |s|
    requires forall j: nat :: j < i ==> !OccursAt(s, sep, j)
    ensures !Contains(s[..i], sep)
  {
    var p := s[..i];
    if Index(p, sep).Some? {
      var j := Index(p, sep).value;
      assert p[j..j + |sep|] == s[j..j + |sep|];
      assert OccursAt(s, sep, j);
    }
  }

  // The first occurrence of `pat` in p + pat + more, when `p` holds none
  // and the first character of `pat` does not recur in it, is the one
  // right after `p`.
  lemma IndexAfterAbsent(p: string, pat: string, more: string)
    requires |pat| >= 1 && !Contains(p, pat)
    requires forall i :: 1 <= i < |pat| ==> pat[i] != pat[0]
    ensures Index(p + pat + more, pat) == Some(|p|)
  {
    var s := p + pat + more;
    assert s[|p|..|p| + |pat|] == pat;
    assert OccursAt(s, pat, |p|);
    forall j: nat | j < |p|
      ensures !OccursAt(s, pat, j)
    {
      if j + |pat| <= |p| {
        assert s[j..j + |pat|] == p[j..j + |pat|];
        assert !OccursAt(p, pat, j);
      } else if j + |pat| <= |s| {
        assert s[j..j + |pat|][|p| - j] == s[|p|] == pat[0];
      }
    }
  }

  // When `h` holds no first character of `sep`, the first piece of a
  // split of h + rest starts with all of `h`.
  lemma SplitHeadKeeps(h: string, rest: string, sep: string)
    requires |sep| > 0 && sep[0] !in h
    ensures var f := Split(h + rest, sep)[0]; |h| <= |f| && f[..|h|] == h
  {
    var s := h + rest;
    match Index(s, sep)
    case None =>
      assert s[..|h|] == h;
    case Some(i) =>
      assert OccursAt(s, sep, i);
      assert s[..i][..|h|] == h;
  }

  // strings.Replace(s, pat, rep, -1) for a non-empty `pat`: every
  // non-overlapping occurrence, scanning from the left.
  function ReplaceAll(s: string, pat: string, rep: string): string
    requires |pat| > 0
  {
    Join(Split(s, pat), rep)
  }

  // strings.Replace(s, pat, rep, 1): the first occurrence only.
  function ReplaceFirst(s: string, pat: string, rep: string): (r: string)
    ensures Index(s, pat).None? ==> r == s
    ensures Index(s, pat).Some? ==>
      var i := Index(s, pat).value; r == s[..i] + rep + s[i + |pat|..]
  {
    match Index(s, pat)
    case None => s
    case Some(i) => s[..i] + rep + s[i + |pat|..]
  }

  lemma ReplaceAllAbsent(s: string, pat: string, rep: string)
    requires |pat| > 0 && !Contains(s, pat)
    ensures ReplaceAll(s, pat, rep) == s
  {
  }

  lemma ReplaceAllSame(s: string, pat: string)
    requires |pat| > 0
    ensures ReplaceAll(s, pat, pat) == s
  {
    JoinSplit(s, pat);
  }

  // Removing every copy of one character.
  function RemoveChar(s: string, c: char): (r: string)
    ensures c !in r
    ensures |r| <= |s|
    ensures forall x :: x in s && x != c ==> x in r
    ensures forall x :: x in r ==> x in s
  {
    if s == [] then []
    else if s[0] == c then RemoveChar(s[1..], c)
    else [s[0]] + RemoveChar(s[1..], c)
  }

  lemma {:induction false} RemoveCharIsReplaceAll(s: string, c: char)
    ensures RemoveChar(s, c) == ReplaceAll(s, [c], "")
    decreases |s|
  {
    if s == [] {
      assert Split(s, [c]) == [s];
    } else {
      RemoveCharIsReplaceAll(s[1..], c);
      var tail := Split(s[1..], [c]);
      if s[0] == c {
        assert OccursAt(s, [c], 0);
        assert s[1..] == s[0 + |[c]|..];
        assert Split(s, [c]) == [""] + tail;
      } else {
        assert !OccursAt(s, [c], 0);
        match Index(s[1..], [c])
        case None =>
          assert Index(s, [c]).None?;
        case Some(k) =>
          OccursShift(s, [c], k);
          assert Index(s, [c]) == Some(k + 1);
          assert s[..k + 1] == [s[0]] + s[1..][..k];
          assert s[k + 1 + 1..] == s[1..][k + 1..];
          assert Split(s, [c]) == [[s[0]] + tail[0]] + tail[1..];
      }
    }
  }

  predicate IsSpace(c: char)
  {
    c == ' ' || c == '\t' || c == '\n' || c == '\r' || c == '\U{000B}' || c == '\U{000C}'
  }

  // strings.TrimLeft/TrimRight/Trim against a set of characters.
  function TrimLeftSet(s: string, cut: set<char>): (r: string)
    ensures |r| <= |s|
    ensures r != s ==> r == s[|s| - |r|..]
    ensures r == [] || r[0] !in cut
    ensures forall i :: 0 <= i < |s| - |r| ==> s[i] in cut
  {
    if s == [] || s[0] !in cut then s else TrimLeftSet(s[1..], cut)
  }

  function TrimRightSet(s: string, cut: set<char>): (r: string)
    ensures |r| <= |s| && r == s[..|r|]
    ensures r == [] || r[|r| - 1] !in cut
    ensures forall i :: |r| <= i < |s| ==> s[i] in cut
  {
    if s == [] || s[|s| - 1] !in cut then s else TrimRightSet(s[..|s| - 1], cut)
  }

  function Trim(s: string, cut: set<char>): string
  {
    TrimRightSet(TrimLeftSet(s, cut), cut)
  }

  const Spaces: set<char> := {' ', '\t', '\n', '\r', '\U{000B}', '\U{000C}'}

  // strings.TrimSpace (ASCII white space).
  function TrimSpace(s: string): string
  {
    Trim(s, Spaces)
  }

  function LowerChar(c: char): char
  {
    if 'A' <= c <= 'Z' then (c as int + 32) as char else c
  }

  // strings.ToLower restricted to ASCII letters.
  function ToLower(s: string): (r: string)
    ensures |r| == |s|
    ensures forall i :: 0 <= i < |s| ==> r[i] == LowerChar(s[i])
  {
    seq(|s|, i requires 0 <= i < |s| => LowerChar(s[i]))
  }

  // strings.EqualFold restricted to ASCII letters.
  predicate EqualFold(a: string, b: string)
  {
    ToLower(a) == ToLower(b)
  }

  // strings.ContainsAny
  predicate ContainsAny(s: string, chars: set<char>)
  {
    exists i :: 0 <= i < |s| && s[i] in chars
  }

  // A one-character pattern occurs exactly where that character is.
  lemma OccursChar(s: string, c: char, i: nat)
    ensures OccursAt(s, [c], i) <==> i < |s| && s[i] == c
  {
    if i < |s| {
      assert s[i..i + 1] == [s[i]];
    }
  }

  // The first `c` of `h + [c] + t`, when `h` holds none, ends `h`.
  lemma IndexAfterFree(h: string, c: char, t: string)
    requires c !in h
    ensures Index(h + [c] + t, [c]) == Some(|h|)
  {
    var s := h + [c] + t;
    OccursChar(s, c, |h|);
    forall j: nat | j < |h|
      ensures !OccursAt(s, [c], j)
    {
      OccursChar(s, c, j);
      assert s[j] == h[j];
    }
  }

  // A string holding no `c` is not cut by it.
  lemma IndexNone(t: string, c: char)
    requires c !in t
    ensures Index(t, [c]) == None
  {
    forall j: nat
      ensures !OccursAt(t, [c], j)
    {
      OccursChar(t, c, j);
    }
  }

  lemma SplitAfterFree(h: string, c: char, t: string)
    requires c !in h
    ensures Split(h + [c] + t, [c]) == [h] + Split(t, [c])
  {
    IndexAfterFree(h, c, t);
    var s := h + [c] + t;
    assert s[..|h|] == h && s[|h| + 1..] == t;
  }

  lemma SplitFree(t: string, c: char)
    requires c !in t
    ensures Split(t, [c]) == [t]
  {
    IndexNone(t, c);
  }

  // Removing a character the string does not hold changes nothing.
  lemma {:induction false} RemoveCharAbsent(s: string, c: char)
    requires c !in s
    ensures RemoveChar(s, c) == s
    decreases |s|
  {
    if s != [] {
      assert c !in s[1..];
      RemoveCharAbsent(s[1..], c);
    }
  }

  // Trimming a set from a string that holds none of it changes nothing.
  lemma TrimAbsent(s: string, cut: set<char>)
    requires forall i :: 0 <= i < |s| ==> s[i] !in cut
    ensures Trim(s, cut) == s
  {
  }

  // A leading character that is cut goes, and the rest is trimmed alone.
  lemma TrimLeftCut(c: char, s: string, cut: set<char>)
    requires c in cut
    ensures TrimLeftSet([c] + s, cut) == TrimLeftSet(s, cut)
  {
    assert ([c] + s)[1..] == s;
  }

  // A text whose first character is kept loses nothing on the left.
  lemma TrimLeftKeep(s: string, cut: set<char>)
    requires s != [] && s[0] !in cut
    ensures TrimLeftSet(s, cut) == s
  {
  }

  // A text whose last character is kept loses nothing on the right.
  lemma TrimRightKeep(s: string, cut: set<char>)
    requires s != [] && s[|s| - 1] !in cut
    ensures TrimRightSet(s, cut) == s
  {
  }

  // A string missing one of the characters of `sub` does not contain it.
  lemma MissingCharNotContained(s: string, sub: string, k: nat)
    requires k < |sub| && sub[k] !in s
    ensures !Contains(s, sub)
  {
    ContainedChars(s, sub, k);
  }

  // Every character of a contained string occurs in the containing one.
  lemma ContainedChars(s: string, sub: string, k: nat)
    requires k < |sub|
    ensures Contains(s, sub) ==> sub[k] in s
  {
    if Contains(s, sub) {
      var i := Index(s, sub).value;
      assert s[i..i + |sub|][k] == s[i + k];
    }
  }

  // A string that does not contain the one-character string [c] does not
  // hold c.
  // A character in neither the pieces nor the separator is not in their
  // join.
  lemma {:induction false} JoinWithout(parts: seq<string>, sep: string, c: char)
    requires forall k :: 0 <= k < |parts| ==> c !in parts[k]
    requires c !in sep
    ensures c !in Join(parts, sep)
    decreases |parts|
  {
    if |parts| > 1 {
      JoinWithout(parts[1..], sep, c);
    }
  }

  // The pieces of a split hold only characters of the text split.
  lemma {:induction false} SplitWithout(s: string, sep: string, c: char)
    requires |sep| > 0 && c !in s
    ensures forall k :: 0 <= k < |Split(s, sep)| ==> c !in Split(s, sep)[k]
    decreases |s|
  {
    match Index(s, sep)
    case None =>
    case Some(i) =>
      var rest := s[i + |sep|..];
      assert forall x :: x in rest ==> x in s;
      assert forall x :: x in s[..i] ==> x in s;
      SplitWithout(rest, sep, c);
  }

  // Replacing a pattern by a text without c leaves no c behind when the
  // text had none, or when the pattern is c itself.
  lemma ReplaceAllWithout(s: string, pat: string, rep: string, c: char)
    requires |pat| > 0 && c !in rep && (c !in s || pat == [c])
    ensures c !in ReplaceAll(s, pat, rep)
  {
    var parts := Split(s, pat);
    if c !in s {
      SplitWithout(s, pat, c);
    } else {
      SplitPiecesFree(s, pat);
      forall k | 0 <= k < |parts| ensures c !in parts[k] {
        NotContainsChar(parts[k], c);
      }
    }
    JoinWithout(parts, rep, c);
  }

  // Replacing by a text no longer than the pattern never lengthens, and
  // by one no shorter never shortens.
  lemma {:induction false} ReplaceAllLength(s: string, pat: string, rep: string)
    requires |pat| > 0
    ensures |rep| <= |pat| ==> |ReplaceAll(s, pat, rep)| <= |s|
    ensures |rep| >= |pat| ==> |ReplaceAll(s, pat, rep)| >= |s|
    decreases |s|
  {
    match Index(s, pat)
    case None =>
    case Some(i) =>
      var rest := s[i + |pat|..];
      ReplaceAllLength(rest, pat, rep);
      assert Split(s, pat) == [s[..i]] + Split(rest, pat);
      JoinCons(s[..i], Split(rest, pat), rep);
      assert |s| == i + |pat| + |rest|;
  }

  lemma NotContainsChar(s: string, c: char)
    requires !Contains(s, [c])
    ensures c !in s
  {
    if c in s {
      var j :| 0 <= j < |s| && s[j] == c;
      OccursChar(s, c, j);
    }
  }

  lemma SplitNAfterFree(h: string, c: char, t: string, n: nat)
    requires c !in h && n >= 2
    ensures SplitN(h + [c] + t, [c], n) == [h] + SplitN(t, [c], n - 1)
  {
    IndexAfterFree(h, c, t);
    var s := h + [c] + t;
    assert s[..|h|] == h && s[|h| + 1..] == t;
  }

  // Splitting words joined by a character none of them holds gives the
  // words back.
  lemma SplitWords2(a: string, b: string, c: char)
    requires c !in a && c !in b
    ensures Split(a + [c] + b, [c]) == [a, b]
  {
    SplitAfterFree(a, c, b);
    SplitFree(b, c);
  }

  lemma SplitWords3(a: string, b: string, d: string, c: char)
    requires c !in a && c !in b && c !in d
    ensures Split(a + [c] + b + [c] + d, [c]) == [a, b, d]
  {
    var t := b + [c] + d;
    assert a + [c] + b + [c] + d == a + [c] + t;
    SplitAfterFree(a, c, t);
    SplitWords2(b, d, c);
    assert [a] + [b, d] == [a, b, d];
  }

  lemma SplitWords4(a: string, b: string, d: string, e: string, c: char)
    requires c !in a && c !in b && c !in d && c !in e
    ensures Split(a + [c] + b + [c] + d + [c] + e, [c]) == [a, b, d, e]
  {
    var t := b + [c] + d + [c] + e;
    assert a + [c] + b + [c] + d + [c] + e == a + [c] + t;
    SplitAfterFree(a, c, t);
    SplitWords3(b, d, e, c);
    assert [a] + [b, d, e] == [a, b, d, e];
  }

  lemma SplitWords5(a: string, b: string, d: string, e: string, f: string, c: char)
    requires c !in a && c !in b && c !in d && c !in e && c !in f
    ensures Split(a + [c] + b + [c] + d + [c] + e + [c] + f, [c]) == [a, b, d, e, f]
  {
    var t := b + [c] + d + [c] + e + [c] + f;
    assert a + [c] + b + [c] + d + [c] + e + [c] + f == a + [c] + t;
    SplitAfterFree(a, c, t);
    SplitWords4(b, d, e, f, c);
    assert [a] + [b, d, e, f] == [a, b, d, e, f];
  }

  // When SplitN with n >= 2 cuts at all, the first piece holds no
  // separator and the string is that piece, the separator and the rest.
  lemma SplitNHead(a: string, c: char, n: nat)
    requires n >= 2 && |SplitN(a, [c], n)| >= 2
    ensures var r := SplitN(a, [c], n);
      c !in r[0] && a == r[0] + [c] + Join(r[1..], [c])
  {
    var i := Index(a, [c]).value;
    var t := a[i + 1..];
    PrefixBeforeFirstFree(a, [c], i);
    NotContainsChar(a[..i], c);
    CutAt(a, [c], i);
    JoinSplitN(t, [c], n - 1);
  }

  // The three pieces of SplitN(a, [c], 3): the first two hold no
  // separator, and joining all three gives `a` back.
  lemma SplitN3(a: string, c: char)
    requires |SplitN(a, [c], 3)| == 3
    ensures var r := SplitN(a, [c], 3);
      c !in r[0] && c !in r[1] && a == r[0] + [c] + r[1] + [c] + r[2]
  {
    var r := SplitN(a, [c], 3);
    SplitNHead(a, c, 3);
    var i := Index(a, [c]).value;
    var t := a[i + 1..];
    assert r[1..] == SplitN(t, [c], 2);
    SplitNHead(t, c, 2);
    JoinSplitN(a, [c], 3);
    JoinThree(r, [c]);
  }

  lemma JoinThree(r: seq<string>, sep: string)
    requires |r| == 3
    ensures Join(r, sep) == r[0] + sep + r[1] + sep + r[2]
  {
    assert r[1..][1..] == [r[2]];
    assert Join(r[1..], sep) == r[1] + sep + r[2];
  }
}
