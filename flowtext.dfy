// The text handling the GRBL and TinyG bufferflows share: splitting the
// firmware's output into lines at a regular-expression line break, and
// removing g-code comments, "(...)" groups and ";..." tails, the way Go's
// regexp.ReplaceAllString does with the patterns \(.*?\) and ;.* (a "."
// never matches a newline).
module FlowText {
  import opened Wrappers
  import opened GoStrings
  import opened Strconv

  // What the flows broadcast on the hub's system channel: a
  // DataCmdComplete record ("Complete" or "Error"), a DataPerLine record,
  // and the raw WipedQueue text of the GRBL flow.
  datatype FlowMsg =
    | CmdComplete(cmd: string, id: string, port: string, bufSize: int, data: string)
    | PerLine(port: string, data: string)
    | Wiped(qcnt: int, port: string)

  // The exact bytes of a WipedQueue notice.
  const WipedHead: string := "{\"Cmd\":\"WipedQueue\",\"QCnt\":"
  const PortField: string := ",\"Port\":\""

  function WipedText(qcnt: int, port: string): (t: string)
    ensures HasPrefix(t, WipedHead) && HasSuffix(t, port + "\"}")
  {
    WipedHead + Itoa(qcnt) + PortField + port + "\"}"
  }

  // The count in the notice reads back as the number sent: it is the text
  // between the QCnt field's name and the Port field.
  lemma WipedCountReadable(qcnt: int, port: string)
    requires MinInt64 <= qcnt <= MaxInt64
    ensures var t := WipedText(qcnt, port);
      var n := |t| - |port| - 2 - |PortField|;
      |WipedHead| <= n && Atoi(t[|WipedHead|..n]) == Some(qcnt)
  {
    var t := WipedText(qcnt, port);
    var n := |t| - |port| - 2 - |PortField|;
    assert t[|WipedHead|..n] == Itoa(qcnt);
    AtoiItoa(qcnt);
  }

  // The length of the line break starting at `i`, or 0 when none starts
  // there: an optional '\r', then one '\n', then, when `maxNl` is 2, an
  // optional second '\n' (the patterns \r{0,1}\n{1,2} and \r{0,1}\n).
  function BreakAt(s: string, i: nat, maxNl: nat): (n: nat)
    requires maxNl == 1 || maxNl == 2
    ensures n > 0 ==> i + n <= |s|
    ensures n > 0 ==> s[i] == '\n' || (n >= 2 && s[i + 1] == '\n')
    ensures n == 0 ==> i >= |s| || s[i] != '\n'
  {
    if i < |s| && s[i] == '\n' then
      (if maxNl == 2 && i + 1 < |s| && s[i + 1] == '\n' then 2 else 1)
    else if i + 1 < |s| && s[i] == '\r' && s[i + 1] == '\n' then
      (if maxNl == 2 && i + 2 < |s| && s[i + 2] == '\n' then 3 else 2)
    else 0
  }

  // The leftmost position at or after `j` where a line break starts.
  function FirstBreakFrom(s: string, j: nat, maxNl: nat): (r: Option<nat>)
    requires maxNl == 1 || maxNl == 2
    ensures r.Some? ==> j <= r.value < |s| && BreakAt(s, r.value, maxNl) > 0
    decreases |s| - j
  {
    if j >= |s| then None
    else if BreakAt(s, j, maxNl) > 0 then Some(j)
    else FirstBreakFrom(s, j + 1, maxNl)
  }

  // No line break starts between `j` and the one found, or anywhere after
  // `j` when none is found.
  lemma {:induction false} FirstBreakSpec(s: string, j: nat, maxNl: nat)
    requires maxNl == 1 || maxNl == 2
    ensures var r := FirstBreakFrom(s, j, maxNl);
      r.Some? ==> forall k :: j <= k < r.value ==> BreakAt(s, k, maxNl) == 0
    ensures var r := FirstBreakFrom(s, j, maxNl);
      r.None? ==> forall k :: j <= k < |s| ==> BreakAt(s, k, maxNl) == 0
    decreases |s| - j
  {
    if j < |s| && BreakAt(s, j, maxNl) == 0 {
      FirstBreakSpec(s, j + 1, maxNl);
    }
  }

  // Regexp.Split(s, -1) for a line-break pattern: the text between
  // consecutive breaks, the last piece being what follows the last break.
  function Lines(s: string, maxNl: nat): (r: seq<string>)
    requires maxNl == 1 || maxNl == 2
    ensures |r| >= 1
    decreases |s|
  {
    match FirstBreakFrom(s, 0, maxNl)
    case None => [s]
    case Some(i) => [s[..i]] + Lines(s[i + BreakAt(s, i, maxNl)..], maxNl)
  }

  // A stretch where no line break starts holds no newline.
  lemma NoBreakNoNewline(s: string, j: nat, e: nat, maxNl: nat)
    requires maxNl == 1 || maxNl == 2
    requires j <= e <= |s|
    requires forall k :: j <= k < e ==> BreakAt(s, k, maxNl) == 0
    ensures '\n' !in s[j..e]
  {
    forall c | c in s[j..e]
      ensures c != '\n'
    {
      var k :| 0 <= k < e - j && s[j..e][k] == c;
      assert BreakAt(s, j + k, maxNl) == 0;
    }
  }

  // No piece holds a newline, and the text is split at all exactly when
  // it holds one.
  lemma LinesNewlineFree(s: string, maxNl: nat)
    requires maxNl == 1 || maxNl == 2
    ensures forall k :: 0 <= k < |Lines(s, maxNl)| ==> '\n' !in Lines(s, maxNl)[k]
    ensures |Lines(s, maxNl)| > 1 <==> '\n' in s
  {
    LinesPiecesFree(s, maxNl);
    LinesSplitIff(s, maxNl);
  }

  // The first piece of a text holding a line break, and what follows it.
  lemma LinesFirst(s: string, maxNl: nat, i: nat)
    requires maxNl == 1 || maxNl == 2
    requires FirstBreakFrom(s, 0, maxNl) == Some(i)
    ensures i + BreakAt(s, i, maxNl) <= |s|
    ensures Lines(s, maxNl) == [s[..i]] + Lines(s[i + BreakAt(s, i, maxNl)..], maxNl)
    ensures '\n' !in s[..i] && '\n' in s
  {
    FirstBreakSpec(s, 0, maxNl);
    NoBreakNoNewline(s, 0, i, maxNl);
    assert s[0..i] == s[..i];
    BreakHasNewline(s, i, maxNl);
  }

  lemma BreakHasNewline(s: string, i: nat, maxNl: nat)
    requires maxNl == 1 || maxNl == 2
    requires BreakAt(s, i, maxNl) > 0
    ensures '\n' in s
  {
    if s[i] == '\n' { assert s[i] in s; } else { assert s[i + 1] in s; }
  }

  // A text without a line break is one piece free of newlines.
  lemma LinesNone(s: string, maxNl: nat)
    requires maxNl == 1 || maxNl == 2
    requires FirstBreakFrom(s, 0, maxNl).None?
    ensures Lines(s, maxNl) == [s] && '\n' !in s
  {
    FirstBreakSpec(s, 0, maxNl);
    NoBreakNoNewline(s, 0, |s|, maxNl);
    assert s[0..|s|] == s;
  }

  lemma {:induction false} LinesPiecesFree(s: string, maxNl: nat)
    requires maxNl == 1 || maxNl == 2
    ensures forall k :: 0 <= k < |Lines(s, maxNl)| ==> '\n' !in Lines(s, maxNl)[k]
    decreases |s|
  {
    var f := FirstBreakFrom(s, 0, maxNl);
    if f.None? {
      LinesNone(s, maxNl);
    } else {
      var i := f.value;
      LinesFirst(s, maxNl, i);
      var rest := s[i + BreakAt(s, i, maxNl)..];
      var tail := Lines(rest, maxNl);
      LinesPiecesFree(rest, maxNl);
      NewlineFreeCons(s[..i], tail);
    }
  }

  lemma NewlineFreeCons(head: string, tail: seq<string>)
    requires '\n' !in head
    requires forall k :: 0 <= k < |tail| ==> '\n' !in tail[k]
    ensures forall k :: 0 <= k < |[head] + tail| ==> '\n' !in ([head] + tail)[k]
  {
    forall k | 0 <= k < |[head] + tail|
      ensures '\n' !in ([head] + tail)[k]
    {
      if k > 0 {
        assert ([head] + tail)[k] == tail[k - 1];
      }
    }
  }

  lemma LinesSplitIff(s: string, maxNl: nat)
    requires maxNl == 1 || maxNl == 2
    ensures |Lines(s, maxNl)| > 1 <==> '\n' in s
  {
    var f := FirstBreakFrom(s, 0, maxNl);
    if f.None? {
      LinesNone(s, maxNl);
    } else {
      LinesFirst(s, maxNl, f.value);
    }
  }

  // The offset in `t` of the first ')' that comes before any newline.
  function CloseBeforeNewline(t: string): (r: Option<nat>)
    ensures r.Some? ==> r.value < |t| && t[r.value] == ')' && '\n' !in t[..r.value]
    ensures r.Some? ==> ')' !in t[..r.value]
    ensures r.None? ==> forall k :: 0 <= k < |t| && t[k] == ')' ==> '\n' in t[..k]
  {
    if t == [] then None
    else if t[0] == ')' then Some(0)
    else if t[0] == '\n' then None
    else match CloseBeforeNewline(t[1..])
      case None =>
        assert forall k :: 1 <= k < |t| ==> t[1..][..k - 1] == t[1..k];
        None
      case Some(k) =>
        assert t[..k + 1] == [t[0]] + t[1..][..k];
        Some(k + 1)
  }

  // The pattern \(.*?\) replaced by "" everywhere: from each '(' up to the
  // first ')' after it on the same line.
  function StripParens(s: string): (r: string)
    ensures |r| <= |s|
    ensures forall x :: x in r ==> x in s
    decreases |s|
  {
    if s == [] then []
    else if s[0] == '(' && CloseBeforeNewline(s[1..]).Some? then
      StripParens(s[1..][CloseBeforeNewline(s[1..]).value + 1..])
    else [s[0]] + StripParens(s[1..])
  }

  // The pattern ;.* replaced by "" everywhere: from each ';' to the end of
  // its line.
  function StripSemicolons(s: string): (r: string)
    ensures ';' !in r
    ensures |r| <= |s|
    ensures forall x :: x in r ==> x in s
    decreases |s|
  {
    if s == [] then []
    else if s[0] == ';' then
      match Index(s, "\n")
      case None => []
      case Some(i) => StripSemicolons(s[i..])
    else [s[0]] + StripSemicolons(s[1..])
  }

  // Both comment patterns, in the order the flows apply them.
  function StripComments(s: string): string
  {
    StripSemicolons(StripParens(s))
  }

  // A "(...)" group on one line leaves nothing of itself behind.
  lemma StripParensGroup(inner: string, b: string)
    requires ')' !in inner && '\n' !in inner
    ensures StripParens(['('] + inner + [')'] + b) == StripParens(b)
  {
    var s := ['('] + inner + [')'] + b;
    var t := s[1..];
    assert t == inner + [')'] + b;
    assert t[|inner|] == ')';
    assert t[..|inner|] == inner;
    var k := CloseBeforeNewline(t);
    assert k.Some?;
    assert k.value == |inner|;
    assert t[|inner| + 1..] == b;
  }

  // Text before the first ';' of a line stays; nothing of a ';' tail does.
  lemma {:induction false} StripSemicolonsLine(a: string, b: string)
    requires ';' !in a && '\n' !in b
    ensures StripSemicolons(a + [';'] + b) == a
    decreases |a|
  {
    var s := a + [';'] + b;
    if a == [] {
      assert s == [';'] + b;
      IndexNone(s, '\n');
    } else {
      assert s[1..] == a[1..] + [';'] + b;
      StripSemicolonsLine(a[1..], b);
      assert s == [a[0]] + s[1..];
    }
  }

  // Text without '(' or ';' is left as it is.
  lemma {:induction false} StripCommentsPlain(s: string)
    requires '(' !in s && ';' !in s
    ensures StripParens(s) == s && StripSemicolons(s) == s
    decreases |s|
  {
    if s != [] {
      StripCommentsPlain(s[1..]);
      assert s == [s[0]] + s[1..];
    }
  }
}
