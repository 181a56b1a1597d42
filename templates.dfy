// The upload command-line templates shared by upload/upload.go and
// programmer/programmer.go: the "{name}" tokens the regular expression
// \{(.*?)\} finds, their resolution through a tool locater, and the quote
// stripping applied to the program and its arguments before they are run.
module Templates {
  import opened Wrappers
  import opened GoStrings

  // A token as the expression matches it: a '{', then no '}' and no
  // newline (a "." never matches one), then the first '}'.
  predicate IsToken(t: string)
  {
    |t| >= 2 && t[0] == '{' && t[|t| - 1] == '}' && '}' !in t[1..|t| - 1] && '\n' !in t
  }

  // The offset in `t` of the first '}', when no newline comes before it.
  function CloseBrace(t: string): (r: Option<nat>)
    ensures r.Some? ==> r.value < |t| && t[r.value] == '}' && '}' !in t[..r.value] && '\n' !in t[..r.value]
    ensures r.None? ==> forall k :: 0 <= k < |t| && t[k] == '}' ==> '\n' in t[..k]
  {
    if t == [] then None
    else if t[0] == '}' then Some(0)
    else if t[0] == '\n' then None
    else match CloseBrace(t[1..])
      case None =>
        assert forall k :: 1 <= k < |t| ==> t[1..][..k - 1] == t[1..k];
        None
      case Some(k) =>
        assert t[..k + 1] == [t[0]] + t[1..][..k];
        Some(k + 1)
  }

  // FindAllString(s, -1): the leftmost matches, left to right, none
  // overlapping. A '{' with no '}' before the next newline starts no match.
  function Tokens(s: string): (r: seq<string>)
    ensures forall k :: 0 <= k < |r| ==> IsToken(r[k])
    decreases |s|
  {
    if s == [] then []
    else if s[0] == '{' && CloseBrace(s[1..]).Some? then
      var e := CloseBrace(s[1..]).value + 2;
      assert s[..e][1..e - 1] == s[1..][..e - 2];
      assert s[..e] == [s[0]] + s[1..][..e - 2] + ['}'];
      [s[..e]] + Tokens(s[e..])
    else Tokens(s[1..])
  }

  // Text without a '{' holds no token.
  lemma {:induction false} NoBraceNoTokens(s: string)
    requires '{' !in s
    ensures Tokens(s) == []
    decreases |s|
  {
    if s != [] {
      NoBraceNoTokens(s[1..]);
    }
  }

  // A brace-free stretch, then a token, then the rest: the token is the
  // first one found, and the search resumes right after it.
  lemma {:induction false} TokenFound(a: string, inner: string, b: string)
    requires '{' !in a && '}' !in inner && '\n' !in inner
    ensures Tokens(a + ['{'] + inner + ['}'] + b) == [['{'] + inner + ['}']] + Tokens(b)
    decreases |a|
  {
    var s := a + ['{'] + inner + ['}'] + b;
    if a == [] {
      var t := s[1..];
      assert t == inner + ['}'] + b;
      assert t[|inner|] == '}';
      assert t[..|inner|] == inner;
      var k := CloseBrace(t);
      assert k.Some?;
      assert k.value == |inner|;
      assert s[..|inner| + 2] == ['{'] + inner + ['}'];
      assert s[|inner| + 2..] == b;
    } else {
      assert s[1..] == a[1..] + ['{'] + inner + ['}'] + b;
      TokenFound(a[1..], inner, b);
    }
  }

  const LocationErrHead: string := "get location of "

  // Resolving the tokens in order: each one the locater resolves replaces
  // its first occurrence in the current text. A locater error stops the
  // resolution with that error, wrapped. With `keepUnlocated` (the upload
  // package) an empty location leaves the text alone; without it (the
  // programmer package) the token is replaced by the empty string.
  function ResolveTokens(s: string, toks: seq<string>, locate: string -> Result<string>, keepUnlocated: bool): (r: Result<string>)
    requires forall k :: 0 <= k < |toks| ==> toks[k] != ""
    ensures r.Err? ==> HasPrefix(r.msg, LocationErrHead)
    decreases |toks|
  {
    if toks == [] then Ok(s)
    else match locate(toks[0])
      case Err(e) => Err(LocationErrHead + toks[0] + ": " + e)
      case Ok(location) =>
        if keepUnlocated && location == "" then ResolveTokens(s, toks[1..], locate, keepUnlocated)
        else ResolveTokens(ReplaceFirst(s, toks[0], location), toks[1..], locate, keepUnlocated)
  }

  // The loop of PartiallyResolve and Resolve over the tokens found.
  method ResolveLoop(commandline: string, toks: seq<string>, locate: string -> Result<string>, keepUnlocated: bool)
      returns (r: Result<string>)
    requires forall k :: 0 <= k < |toks| ==> toks[k] != ""
    ensures r == ResolveTokens(commandline, toks, locate, keepUnlocated)
  {
    var s := commandline;
    var i := 0;
    while i < |toks|
      invariant 0 <= i <= |toks|
      invariant ResolveTokens(s, toks[i..], locate, keepUnlocated) == ResolveTokens(commandline, toks, locate, keepUnlocated)
    {
      var element := toks[i];
      assert toks[i..][1..] == toks[i + 1..];
      var location := locate(element);
      if location.Err? {
        return Err(LocationErrHead + element + ": " + location.msg);
      }
      if !(keepUnlocated && location.value == "") {
        s := ReplaceFirst(s, element, location.value);
      }
      i := i + 1;
    }
    return Ok(s);
  }

  // The resolution fails exactly when the locater fails on some token.
  lemma {:induction false} ResolveFailsIff(s: string, toks: seq<string>, locate: string -> Result<string>, keepUnlocated: bool)
    requires forall k :: 0 <= k < |toks| ==> toks[k] != ""
    ensures ResolveTokens(s, toks, locate, keepUnlocated).Err? <==> exists k :: 0 <= k < |toks| && locate(toks[k]).Err?
    decreases |toks|
  {
    if toks != [] {
      match locate(toks[0])
      case Err(_) =>
      case Ok(location) =>
        var next := if keepUnlocated && location == "" then s else ReplaceFirst(s, toks[0], location);
        ResolveFailsIff(next, toks[1..], locate, keepUnlocated);
        if exists k :: 0 <= k < |toks| && locate(toks[k]).Err? {
          var k :| 0 <= k < |toks| && locate(toks[k]).Err?;
          assert toks[1..][k - 1] == toks[k];
        }
    }
  }

  // The same, for the tokens found in the text resolved.
  lemma TokensFailIff(c: string, locate: string -> Result<string>, keepUnlocated: bool)
    ensures ResolveTokens(c, Tokens(c), locate, keepUnlocated).Err? <==> exists t :: t in Tokens(c) && locate(t).Err?
  {
    ResolveFailsIff(c, Tokens(c), locate, keepUnlocated);
  }

  // In the upload package a locater that knows none of the tokens leaves
  // the command line as it is.
  lemma {:induction false} UnlocatedKept(s: string, toks: seq<string>, locate: string -> Result<string>)
    requires forall k :: 0 <= k < |toks| ==> toks[k] != "" && locate(toks[k]) == Ok("")
    ensures ResolveTokens(s, toks, locate, true) == Ok(s)
    decreases |toks|
  {
    if toks != [] {
      UnlocatedKept(s, toks[1..], locate);
    }
  }

  // In the programmer package the same locater erases each token's first
  // occurrence instead.
  lemma ErasedWhenUnlocated(s: string, t: string, locate: string -> Result<string>)
    requires t != "" && locate(t) == Ok("")
    ensures ResolveTokens(s, [t], locate, false) == Ok(ReplaceFirst(s, t, ""))
    ensures Contains(s, t) ==> |ReplaceFirst(s, t, "")| == |s| - |t|
  {
  }

  // program: every double quote removed from the binary and, in place,
  // from each argument.
  method StripQuotes(binary: string, args: array<string>) returns (bin: string)
    modifies args
    ensures bin == RemoveChar(binary, '"')
    ensures forall i :: 0 <= i < args.Length ==> args[i] == RemoveChar(old(args[i]), '"')
  {
    bin := RemoveChar(binary, '"');
    var i := 0;
    while i < args.Length
      invariant 0 <= i <= args.Length
      invariant forall k :: 0 <= k < i ==> args[k] == RemoveChar(old(args[k]), '"')
      invariant forall k :: i <= k < args.Length ==> args[k] == old(args[k])
    {
      args[i] := RemoveChar(args[i], '"');
      i := i + 1;
    }
  }

  // What the quote stripping leaves: no quote anywhere, and every other
  // character, in order; it is strings.Replace with an empty replacement.
  lemma QuotesStripped(a: string)
    ensures '"' !in RemoveChar(a, '"')
    ensures RemoveChar(a, '"') == ReplaceAll(a, "\"", "")
    ensures '"' !in a ==> RemoveChar(a, '"') == a
  {
    RemoveCharIsReplaceAll(a, '"');
    if '"' !in a {
      RemoveCharAbsent(a, '"');
    }
  }
}
