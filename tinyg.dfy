// bufferflow_tinyg.go: the buffer flow for TinyG controllers. Commands that
// get a response are counted into a CommandQueue until 200 bytes are
// outstanding, and every {"r":{ response line retires the oldest one.
// BreakApartCommands cuts a command after each of the single-character
// commands '!', '~' and '%' and at newlines, and rewrites the commands that
// would take the controller out of JSON mode.
//
// As for the GRBL flow, `released` holds the release types SetPaused(false,
// n) has put on the semaphore and nobody has received yet.
module Tinyg {
  import opened Wrappers
  import opened GoStrings
  import opened CommandQueue
  import opened FlowText
  import Bytes

  const BufferMax := 200

  datatype Flow = Flow(
    paused: bool,
    released: seq<int>,
    queue: seq<Cmd>,
    latest: string,
    out: seq<FlowMsg>)

  function Release(f: Flow, n: int): Flow
  {
    f.(paused := false, released := f.released + [n])
  }

  // SeeIfSpecificCommandsReturnNoResponse: the command starts with one of
  // ! ~ % newline $ ?.
  predicate ReturnsNoResponse(cmd: string)
  {
    cmd != [] && cmd[0] in {'!', '~', '%', '\n', '$', '?'}
  }

  // The response line that completes a command.
  predicate IsSlotDone(line: string)
  {
    Contains(line, "{\"r\":{")
  }

  // The oldest command, if any, is retired and reported.
  function Retire(port: string, f: Flow): Flow
  {
    if f.queue != [] then
      f.(queue := f.queue[1..],
         out := f.out + [CmdComplete("Complete", f.queue[0].id, port, TotalLen(f.queue[1..]), f.queue[0].data)])
    else f
  }

  function Resume(f: Flow): Flow
  {
    if TotalLen(f.queue) < BufferMax && f.paused then Release(f, 1) else f
  }

  // One complete line from the controller: a response retires a command
  // and may resume the flow; every line is echoed.
  function HandleLine(port: string, f: Flow, line: string): (g: Flow)
    ensures g.latest == f.latest && f.out < g.out && g.out[|g.out| - 1] == PerLine(port, line + "\n")
    ensures !IsSlotDone(line) ==> g.queue == f.queue && g.paused == f.paused && g.released == f.released
  {
    var f1 := if IsSlotDone(line) then Resume(Retire(port, f)) else f;
    f1.(out := f1.out + [PerLine(port, line + "\n")])
  }

  function Feed(port: string, f: Flow, lines: seq<string>): (g: Flow)
    ensures g.latest == f.latest && f.out <= g.out && |g.out| >= |f.out| + |lines|
  {
    if lines == [] then f else HandleLine(port, Feed(port, f, lines[..|lines| - 1]), lines[|lines| - 1])
  }

  lemma FeedSnoc(port: string, f: Flow, lines: seq<string>, i: nat)
    requires i < |lines|
    ensures Feed(port, f, lines[..i + 1]) == HandleLine(port, Feed(port, f, lines[..i]), lines[i])
  {
    assert lines[..i + 1][..i] == lines[..i];
  }

  // OnIncomingData, at the line break \r{0,1}\n.
  function Incoming(port: string, f: Flow, data: string): Flow
  {
    var all := f.latest + data;
    var ls := Lines(all, 1);
    if |ls| <= 1 then f.(latest := all)
    else Feed(port, f.(latest := all), ls[..|ls| - 1]).(latest := ls[|ls| - 1])
  }

  // The data broadcast in DataPerLine messages, in order.
  function Echoed(ms: seq<FlowMsg>): seq<string>
  {
    if ms == [] then []
    else
      var m := ms[|ms| - 1];
      Echoed(ms[..|ms| - 1]) + (if m.PerLine? then [m.data] else [])
  }

  lemma EchoedSnoc(ms: seq<FlowMsg>, m: FlowMsg)
    ensures Echoed(ms + [m]) == Echoed(ms) + (if m.PerLine? then [m.data] else [])
  {
    assert (ms + [m])[..|ms|] == ms;
  }

  // Each line with its newline put back.
  function WithNewlines(lines: seq<string>): (r: seq<string>)
    ensures |r| == |lines|
  {
    if lines == [] then [] else WithNewlines(lines[..|lines| - 1]) + [lines[|lines| - 1] + "\n"]
  }

  // Every complete line is echoed, in order, whatever it says.
  lemma {:induction false} FeedEchoesAll(port: string, f: Flow, lines: seq<string>)
    ensures Echoed(Feed(port, f, lines).out) == Echoed(f.out) + WithNewlines(lines)
    decreases |lines|
  {
    if lines != [] {
      var init := lines[..|lines| - 1];
      var line := lines[|lines| - 1];
      FeedEchoesAll(port, f, init);
      var h := Feed(port, f, init);
      HandleLineEchoes(port, h, line);
      Bytes.AppendAssoc(Echoed(f.out), WithNewlines(init), [line + "\n"]);
    }
  }

  // One line adds exactly its own echo.
  lemma HandleLineEchoes(port: string, h: Flow, line: string)
    ensures Echoed(HandleLine(port, h, line).out) == Echoed(h.out) + [line + "\n"]
  {
    var h1 := if IsSlotDone(line) then Resume(Retire(port, h)) else h;
    if IsSlotDone(line) {
      RetireEchoesNothing(port, h);
    }
    EchoedSnoc(h1.out, PerLine(port, line + "\n"));
  }

  lemma RetireEchoesNothing(port: string, h: Flow)
    ensures Echoed(Resume(Retire(port, h)).out) == Echoed(h.out)
  {
    if h.queue != [] {
      var r := Retire(port, h);
      EchoedSnoc(h.out, r.out[|r.out| - 1]);
      assert r.out == h.out + [r.out[|r.out| - 1]];
    }
  }

  // The queue only ever loses its oldest command, one per response line.
  lemma {:induction false} FeedRetiresOldest(port: string, f: Flow, lines: seq<string>)
    ensures var g := Feed(port, f, lines);
      |g.queue| <= |f.queue| && g.queue == f.queue[|f.queue| - |g.queue|..]
    decreases |lines|
  {
    if lines != [] {
      FeedRetiresOldest(port, f, lines[..|lines| - 1]);
    }
  }

  // After a response the flow stays paused only while at least BufferMax
  // bytes are outstanding.
  lemma ResponseUnpauses(port: string, f: Flow, line: string)
    requires IsSlotDone(line)
    ensures var g := HandleLine(port, f, line);
      g.paused ==> TotalLen(g.queue) >= BufferMax
  {
  }

  // The text held back never holds a newline.
  lemma IncomingHoldsNoLine(port: string, f: Flow, data: string)
    requires '\n' !in f.latest
    ensures '\n' !in Incoming(port, f, data).latest
  {
    LinesNewlineFree(f.latest + data, 1);
  }

  predicate IsSingle(c: char)
  {
    c == '!' || c == '~' || c == '%'
  }

  predicate HasSingle(s: string)
  {
    exists i :: 0 <= i < |s| && IsSingle(s[i])
  }

  // The pattern ([!~%]) replaced by "$1\n": a newline after each
  // single-character command.
  function MarkSingles(s: string): (r: string)
  {
    if s == [] then []
    else if IsSingle(s[0]) then [s[0], '\n'] + MarkSingles(s[1..])
    else [s[0]] + MarkSingles(s[1..])
  }

  // The pieces MarkSingles and the split at newlines produce, read off the
  // original command: `acc` is the piece being built.
  function PiecesFrom(acc: string, s: string): (r: seq<string>)
    ensures |r| >= 1
    decreases |s|
  {
    if s == [] then [acc]
    else if s[0] == '\n' then [acc] + PiecesFrom([], s[1..])
    else if IsSingle(s[0]) then [acc + [s[0]]] + PiecesFrom([], s[1..])
    else PiecesFrom(acc + [s[0]], s[1..])
  }

  lemma {:induction false} SplitMarked(acc: string, s: string)
    requires '\n' !in acc
    ensures Split(acc + MarkSingles(s), "\n") == PiecesFrom(acc, s)
    decreases |s|
  {
    if s == [] {
      assert acc + MarkSingles(s) == acc;
      SplitFree(acc, '\n');
    } else {
      var c := s[0];
      var rest := MarkSingles(s[1..]);
      if c == '\n' {
        assert acc + MarkSingles(s) == acc + ['\n'] + rest;
        SplitAfterFree(acc, '\n', rest);
        SplitMarked([], s[1..]);
        assert [] + rest == rest;
      } else if IsSingle(c) {
        assert acc + MarkSingles(s) == (acc + [c]) + ['\n'] + rest;
        SplitAfterFree(acc + [c], '\n', rest);
        SplitMarked([], s[1..]);
        assert [] + rest == rest;
      } else {
        assert acc + MarkSingles(s) == (acc + [c]) + rest;
        SplitMarked(acc + [c], s[1..]);
      }
    }
  }

  // Every piece is free of newlines and holds a single-character command
  // at most at its end; the last piece holds none.
  predicate PieceShape(p: string)
  {
    '\n' !in p && forall i :: 0 <= i < |p| - 1 ==> !IsSingle(p[i])
  }

  lemma {:induction false} PiecesShape(acc: string, s: string)
    requires PieceShape(acc) && !HasSingle(acc)
    ensures forall k :: 0 <= k < |PiecesFrom(acc, s)| ==> PieceShape(PiecesFrom(acc, s)[k])
    ensures !HasSingle(PiecesFrom(acc, s)[|PiecesFrom(acc, s)| - 1])
    decreases |s|
  {
    if s != [] {
      var c := s[0];
      if c == '\n' || IsSingle(c) {
        PiecesShape([], s[1..]);
        var r := PiecesFrom([], s[1..]);
        var p := if c == '\n' then acc else acc + [c];
        assert PiecesFrom(acc, s) == [p] + r;
        assert PieceShape(p) by {
          forall i | 0 <= i < |p| - 1
            ensures !IsSingle(p[i])
          {
            assert p[i] == acc[i];
          }
        }
      } else {
        var a := acc + [c];
        NoSingleSnoc(acc, c);
        PiecesShape(a, s[1..]);
      }
    }
  }

  lemma NoSingleSnoc(acc: string, c: char)
    requires !HasSingle(acc) && !IsSingle(c)
    ensures !HasSingle(acc + [c])
  {
    var a := acc + [c];
    forall i | 0 <= i < |a|
      ensures !IsSingle(a[i])
    {
      if i < |acc| {
        assert a[i] == acc[i];
      }
    }
  }

  // The first pass of BreakApartCommands over the pieces.
  function KeepPieces(pieces: seq<string>): (r: seq<string>)
    requires |pieces| >= 1
    ensures forall k :: 0 <= k < |r| ==> Closed(r[k])
  {
    if |pieces| == 1 then
      if HasSingle(pieces[0]) then [pieces[0]] else []
    else
      (if HasSingle(pieces[0]) then [pieces[0]] else [pieces[0] + "\n"]) + KeepPieces(pieces[1..])
  }

  // Each command the first pass keeps holds a single-character command
  // or ends with a newline.
  predicate Closed(item: string)
  {
    HasSingle(item) || (item != [] && item[|item| - 1] == '\n')
  }

  function FirstPass(cmd: string): (r: seq<string>)
    ensures forall k :: 0 <= k < |r| ==> Closed(r[k])
  {
    var pieces := Split(MarkSingles(cmd), "\n");
    if |pieces| == 1 then
      if HasSingle(pieces[0]) then [pieces[0]] else [pieces[0] + "\n"]
    else KeepPieces(pieces)
  }

  // The JSON-mode rewriting rules of the second pass.
  predicate SetsJsonVerbosity0(item: string)
  {
    Contains(item, "$jv=0") || Contains(item, "{\"jv\":0}")
  }

  predicate SetsCrLf1(item: string)
  {
    Contains(item, "$ec=1") || Contains(item, "{\"ec\":1}")
  }

  predicate PutsBackInJsonMode(item: string)
  {
    item != [] && (item[0] == '$' || item[0] == '?')
  }

  // The replacement rules for one command.
  function Replace(item: string): string
  {
    if SetsJsonVerbosity0(item) then "{\"jv\":1}\n"
    else if SetsCrLf1(item) then "{\"ec\":0}\n"
    else item
  }

  function Rewrite(item: string): (r: seq<string>)
    ensures 1 <= |r| <= 2
  {
    [Replace(item)] + (if PutsBackInJsonMode(item) then [EnableJson()] else [])
  }

  // The command that puts the controller back in JSON mode.
  function EnableJson(): (r: string)
    ensures Harmless(r)
  {
    ReplacementHarmless("{\"ej\":\"\"}\n", 6, 6);
    "{\"ej\":\"\"}\n"
  }

  function RewriteAll(items: seq<string>): (r: seq<string>)
    ensures |items| <= |r| <= 2 * |items|
  {
    if items == [] then [] else RewriteAll(items[..|items| - 1]) + Rewrite(items[|items| - 1])
  }

  function BreakApart(cmd: string): (r: seq<string>)
    ensures forall k :: 0 <= k < |r| ==> Harmless(r[k])
  {
    RewriteAllHarmless(FirstPass(cmd));
    RewriteAll(FirstPass(cmd))
  }

  // No command passed on turns JSON verbosity off or CR/LF expansion on:
  // the replacements themselves are harmless.
  predicate Harmless(item: string)
  {
    !SetsJsonVerbosity0(item) && !SetsCrLf1(item)
  }

  // Each replacement misses a character of each pattern.
  lemma ReplacementHarmless(r: string, jvMiss: nat, ecMiss: nat)
    requires jvMiss < 8 && ecMiss < 8
    requires '$' !in r && "{\"jv\":0}"[jvMiss] !in r && "{\"ec\":1}"[ecMiss] !in r
    ensures Harmless(r)
  {
    MissingCharNotContained(r, "$jv=0", 0);
    MissingCharNotContained(r, "{\"jv\":0}", jvMiss);
    MissingCharNotContained(r, "$ec=1", 0);
    MissingCharNotContained(r, "{\"ec\":1}", ecMiss);
  }

  lemma ReplaceHarmless(item: string)
    ensures Harmless(Replace(item))
  {
    if SetsJsonVerbosity0(item) {
      ReplacementHarmless("{\"jv\":1}\n", 6, 2);
    } else if SetsCrLf1(item) {
      ReplacementHarmless("{\"ec\":0}\n", 2, 6);
    }
  }

  lemma RewriteHarmless(item: string)
    ensures forall k :: 0 <= k < |Rewrite(item)| ==> Harmless(Rewrite(item)[k])
  {
    ReplaceHarmless(item);
  }

  lemma {:induction false} RewriteAllHarmless(items: seq<string>)
    ensures forall k :: 0 <= k < |RewriteAll(items)| ==> Harmless(RewriteAll(items)[k])
    decreases |items|
  {
    if items != [] {
      var init := items[..|items| - 1];
      RewriteAllHarmless(init);
      RewriteHarmless(items[|items| - 1]);
      HarmlessAppend(RewriteAll(init), Rewrite(items[|items| - 1]));
    }
  }

  lemma HarmlessAppend(a: seq<string>, b: seq<string>)
    requires forall k :: 0 <= k < |a| ==> Harmless(a[k])
    requires forall k :: 0 <= k < |b| ==> Harmless(b[k])
    ensures forall k :: 0 <= k < |a + b| ==> Harmless((a + b)[k])
  {
    forall k | 0 <= k < |a + b|
      ensures Harmless((a + b)[k])
    {
      if k >= |a| {
        assert (a + b)[k] == b[k - |a|];
      }
    }
  }

  // A "$" or "?" command is always followed by the request to stay in
  // JSON mode.
  lemma RewriteRestoresJson(item: string)
    requires PutsBackInJsonMode(item)
    ensures Rewrite(item) == [Replace(item), EnableJson()]
  {
  }

  // What the first pass keeps, laid end to end, followed by the piece it
  // throws away, gives back the command: the pass loses nothing but the
  // text after the last newline or single-character command.
  function Concat(items: seq<string>): string
  {
    if items == [] then [] else items[0] + Concat(items[1..])
  }

  // The head the first pass keeps for a piece that is not the last.
  function Kept(p: string): string
  {
    if HasSingle(p) then p else p + "\n"
  }

  // The kept commands laid end to end, followed by the dropped last piece.
  function Rebuilt(ps: seq<string>): string
    requires |ps| >= 1
  {
    Concat(KeepPieces(ps)) + ps[|ps| - 1]
  }

  lemma RebuiltCons(p: string, r: seq<string>)
    requires |r| >= 1
    ensures Rebuilt([p] + r) == Kept(p) + Rebuilt(r)
  {
    var ps := [p] + r;
    assert ps[1..] == r;
    assert KeepPieces(ps) == [Kept(p)] + KeepPieces(r);
    assert ([Kept(p)] + KeepPieces(r))[1..] == KeepPieces(r);
    assert ps[|ps| - 1] == r[|r| - 1];
    Bytes.AppendAssoc(Kept(p), Concat(KeepPieces(r)), r[|r| - 1]);
  }

  // A piece closed by a newline or by a single-character command.
  lemma PiecesBreak(acc: string, s: string)
    requires s != [] && (s[0] == '\n' || IsSingle(s[0]))
    ensures PiecesFrom(acc, s) == [if s[0] == '\n' then acc else acc + [s[0]]] + PiecesFrom([], s[1..])
  {
  }

  // One step of KeepRebuilds: a piece closed by a newline or by a
  // single-character command.
  lemma RebuildStep(acc: string, s: string)
    requires PieceShape(acc) && !HasSingle(acc)
    requires s != [] && (s[0] == '\n' || IsSingle(s[0]))
    requires Rebuilt(PiecesFrom([], s[1..])) == [] + s[1..]
    ensures Rebuilt(PiecesFrom(acc, s)) == acc + s
  {
    var c, t := s[0], s[1..];
    assert [] + t == t;
    var p := if c == '\n' then acc else acc + [c];
    PiecesBreak(acc, s);
    RebuiltCons(p, PiecesFrom([], t));
    ClosedKept(acc, c);
    Bytes.AppendAssoc(acc, [c], t);
    assert [c] + t == s;
  }

  lemma ClosedKept(acc: string, c: char)
    requires !HasSingle(acc) && (c == '\n' || IsSingle(c))
    ensures Kept(if c == '\n' then acc else acc + [c]) == acc + [c]
  {
    if c != '\n' {
      var p := acc + [c];
      assert p[|acc|] == c;
    }
  }

  lemma {:induction false} KeepRebuilds(acc: string, s: string)
    requires PieceShape(acc) && !HasSingle(acc)
    ensures Rebuilt(PiecesFrom(acc, s)) == acc + s
    decreases |s|
  {
    if s == [] {
      assert PiecesFrom(acc, s) == [acc];
    } else {
      var c := s[0];
      var t := s[1..];
      if c == '\n' || IsSingle(c) {
        KeepRebuilds([], t);
        RebuildStep(acc, s);
      } else {
        var a := acc + [c];
        NoSingleSnoc(acc, c);
        KeepRebuilds(a, t);
        Bytes.AppendAssoc(acc, [c], t);
        assert [c] + t == s;
      }
    }
  }

  lemma MarkedPieces(cmd: string, ps: seq<string>)
    requires ps == Split(MarkSingles(cmd), "\n")
    ensures ps == PiecesFrom([], cmd)
  {
    SplitMarked([], cmd);
    assert [] + MarkSingles(cmd) == MarkSingles(cmd);
  }

  lemma LastPieceFree(s: string)
    ensures var ps := PiecesFrom([], s); !HasSingle(ps[|ps| - 1])
  {
    PiecesShape([], s);
  }

  lemma RebuildsFromEmpty(s: string)
    ensures Rebuilt(PiecesFrom([], s)) == s
  {
    KeepRebuilds([], s);
    assert [] + s == s;
  }

  // The first pass, stated on the command itself: a command of one piece
  // gets a newline; otherwise the kept commands and the dropped tail make
  // up the command, and the tail holds no single-character command.
  lemma FirstPassRebuilds(cmd: string, ps: seq<string>)
    requires ps == Split(MarkSingles(cmd), "\n")
    ensures |ps| >= 1 && !HasSingle(ps[|ps| - 1])
    ensures |ps| == 1 ==> ps[0] == cmd && FirstPass(cmd) == [cmd + "\n"]
    ensures |ps| > 1 ==> Concat(FirstPass(cmd)) + ps[|ps| - 1] == cmd
  {
    MarkedPieces(cmd, ps);
    LastPieceFree(cmd);
    OnePieceRebuilds(cmd, ps);
    ManyPiecesRebuild(cmd, ps);
  }

  lemma OnePieceRebuilds(cmd: string, ps: seq<string>)
    requires ps == Split(MarkSingles(cmd), "\n") && ps == PiecesFrom([], cmd)
    ensures |ps| == 1 ==> ps[0] == cmd && FirstPass(cmd) == [cmd + "\n"]
  {
    if |ps| != 1 {
      return;
    }
    RebuildsFromEmpty(cmd);
    LastPieceFree(cmd);
    assert Concat(KeepPieces(ps)) == [];
    assert ps[0] == cmd;
  }

  lemma ManyPiecesRebuild(cmd: string, ps: seq<string>)
    requires ps == Split(MarkSingles(cmd), "\n") && ps == PiecesFrom([], cmd)
    ensures |ps| > 1 ==> Concat(FirstPass(cmd)) + ps[|ps| - 1] == cmd
  {
    if |ps| <= 1 {
      return;
    }
    RebuildsFromEmpty(cmd);
    assert FirstPass(cmd) == KeepPieces(ps);
  }

  lemma {:induction false} MarkSinglesNone(x: string)
    requires !HasSingle(x)
    ensures MarkSingles(x) == x
    decreases |x|
  {
    if x != [] {
      assert !HasSingle(x[1..]) by {
        forall i | 0 <= i < |x[1..]|
          ensures !IsSingle(x[1..][i])
        {
          assert x[1..][i] == x[i + 1];
        }
      }
      MarkSinglesNone(x[1..]);
      assert x == [x[0]] + x[1..];
    }
  }

  // Text after the last newline is dropped: of "G1\nG2" only "G1\n" is
  // passed on.
  lemma DropsUnterminatedTail(a: string, b: string)
    requires '\n' !in a && '\n' !in b && !HasSingle(a) && !HasSingle(b)
    ensures FirstPass(a + "\n" + b) == [a + "\n"]
  {
    var cmd := a + "\n" + b;
    assert !HasSingle(cmd) by {
      forall i | 0 <= i < |cmd|
        ensures !IsSingle(cmd[i])
      {
        if i < |a| {
          assert cmd[i] == a[i];
        } else if i > |a| {
          assert cmd[i] == b[i - |a| - 1];
        }
      }
    }
    MarkSinglesNone(cmd);
    SplitWords2(a, b, '\n');
    var ps := [a, b];
    assert Split(MarkSingles(cmd), "\n") == ps;
    assert ps[1..] == [b];
    assert KeepPieces([b]) == [];
    assert KeepPieces(ps) == [a + "\n"] + KeepPieces([b]);
  }

  // SeeIfSpecificCommands*: a character test after the comments are
  // removed.
  predicate ShouldSkipBuffer(cmd: string)
  {
    var s := StripComments(cmd);
    '!' in s || '~' in s || '%' in s
  }

  predicate ShouldPauseBuffer(cmd: string)
  {
    '!' in StripComments(cmd)
  }

  predicate ShouldUnpauseBuffer(cmd: string)
  {
    var s := StripComments(cmd);
    '~' in s || '%' in s
  }

  predicate ShouldWipeBuffer(cmd: string)
  {
    '%' in StripComments(cmd)
  }

  // Skipping is pausing or resuming; a wipe also resumes.
  lemma SpecialCommandsSkip(cmd: string)
    ensures ShouldSkipBuffer(cmd) <==> ShouldPauseBuffer(cmd) || ShouldUnpauseBuffer(cmd)
    ensures ShouldWipeBuffer(cmd) ==> ShouldUnpauseBuffer(cmd)
  {
  }

  // A "(...)" comment in front of a command changes none of the decisions:
  // a '!' inside it does not pause.
  lemma CommentIgnored(inner: string, rest: string)
    requires ')' !in inner && '\n' !in inner
    ensures var cmd := ['('] + inner + [')'] + rest;
      (ShouldSkipBuffer(cmd) <==> ShouldSkipBuffer(rest)) &&
      (ShouldPauseBuffer(cmd) <==> ShouldPauseBuffer(rest)) &&
      (ShouldUnpauseBuffer(cmd) <==> ShouldUnpauseBuffer(rest)) &&
      (ShouldWipeBuffer(cmd) <==> ShouldWipeBuffer(rest))
  {
    StripParensGroup(inner, rest);
  }

  class TinygFlow {
    const port: string
    const q: Queue
    var paused: bool
    var released: seq<int>
    var latestData: string
    var out: seq<FlowMsg>

    ghost function State(): Flow
      reads this, q`items
    {
      Flow(paused, released, q.Items(), latestData, out)
    }

    ghost predicate Valid()
      reads q, q.Repr
    {
      q.Valid() && this !in q.Repr
    }

    // Init (the rx query loop is not modelled).
    constructor (port: string)
      ensures Valid() && fresh(q.Repr)
      ensures this.port == port
      ensures State() == Flow(false, [], [], "", [])
    {
      this.port := port;
      q := new Queue();
      paused := false;
      released := [];
      latestData := "";
      out := [];
    }

    method SetPaused(isPaused: bool, semRelease: int)
      modifies this
      ensures paused == isPaused
      ensures released == if isPaused then old(released) else old(released) + [semRelease]
      ensures latestData == old(latestData) && out == old(out)
    {
      paused := isPaused;
      if !isPaused {
        released := released + [semRelease];
      }
    }

    method Pause()
      modifies this
      ensures State() == old(State()).(paused := true)
    {
      SetPaused(true, 0);
    }

    method Unpause()
      modifies this
      ensures State() == Release(old(State()), 1)
    {
      SetPaused(false, 1);
    }

    // The first half of BlockUntilReady: only a command that gets a
    // response is queued, and the flow pauses once BufferMax bytes are
    // outstanding.
    method Admit(cmd: string, id: string) returns (noResponse: bool)
      requires Valid()
      modifies this, q, q.Repr
      ensures Valid() && fresh(q.Repr - old(q.Repr))
      ensures noResponse == ReturnsNoResponse(cmd)
      ensures q.Items() == if noResponse then old(q.Items()) else old(q.Items()) + [Cmd(cmd, id)]
      ensures paused == (old(paused) || TotalLen(q.Items()) >= BufferMax)
      ensures released == old(released) && latestData == old(latestData) && out == old(out)
    {
      noResponse := ReturnsNoResponse(cmd);
      if !noResponse {
        q.Push(cmd, id);
      }
      var n := q.LenOfCmds();
      if n >= BufferMax {
        SetPaused(true, 0);
      }
    }

    // BlockUntilReady: a paused flow drains the pending release signals,
    // then waits for the next one, `unblock`; the second result says
    // whether a response is to be waited for.
    method BlockUntilReady(cmd: string, id: string, unblock: int) returns (proceed: bool, awaitsResponse: bool)
      requires Valid()
      modifies this, q, q.Repr
      ensures Valid() && fresh(q.Repr - old(q.Repr))
      ensures q.Items() == if ReturnsNoResponse(cmd) then old(q.Items()) else old(q.Items()) + [Cmd(cmd, id)]
      ensures paused == (old(paused) || TotalLen(q.Items()) >= BufferMax)
      ensures released == if paused then [] else old(released)
      ensures paused && unblock == 2 ==> !proceed && !awaitsResponse
      ensures !(paused && unblock == 2) ==> proceed && (awaitsResponse <==> !ReturnsNoResponse(cmd))
      ensures latestData == old(latestData) && out == old(out)
    {
      var noResponse := Admit(cmd, id);
      if paused {
        released := [];
        if unblock == 2 {
          return false, false;
        }
      }
      return true, !noResponse;
    }

    method ReleaseLock()
      requires Valid()
      modifies this, q
      ensures Valid() && q.Repr == old(q.Repr)
      ensures State() == Release(old(State()).(queue := []), 2)
    {
      q.Delete();
      SetPaused(false, 2);
    }

    // Close: ReleaseLock, then Unpause (stopping the query loop is not
    // modelled).
    method Close()
      requires Valid()
      modifies this, q
      ensures Valid() && q.Repr == old(q.Repr)
      ensures State() == Release(Release(old(State()).(queue := []), 2), 1)
    {
      ReleaseLock();
      Unpause();
    }

    method RetireOne()
      requires Valid()
      modifies this, q, q.Repr
      ensures Valid() && fresh(q.Repr - old(q.Repr))
      ensures State() == Retire(port, old(State()))
    {
      var size := q.Len();
      if size > 0 {
        var doneCmd, id := q.Poll();
        var left := q.LenOfCmds();
        out := out + [CmdComplete("Complete", id, port, left, doneCmd)];
      }
    }

    method ResumeIfRoom()
      requires Valid()
      modifies this
      ensures Valid()
      ensures State() == Resume(old(State()))
    {
      var left := q.LenOfCmds();
      if left < BufferMax && paused {
        SetPaused(false, 1);
      }
    }

    method HandleOne(line: string)
      requires Valid()
      modifies this, q, q.Repr
      ensures Valid() && fresh(q.Repr - old(q.Repr))
      ensures State() == HandleLine(port, old(State()), line)
    {
      if Index(line, "{\"r\":{").Some? {
        RetireOne();
        ResumeIfRoom();
      }
      out := out + [PerLine(port, line + "\n")];
    }

    method FeedLines(body: seq<string>)
      requires Valid()
      modifies this, q, q.Repr
      ensures Valid() && fresh(q.Repr - old(q.Repr))
      ensures State() == Feed(port, old(State()), body)
    {
      ghost var f0 := State();
      var i := 0;
      while i < |body|
        invariant 0 <= i <= |body|
        invariant Valid() && fresh(q.Repr - old(q.Repr))
        invariant State() == Feed(port, f0, body[..i])
      {
        FeedOne(f0, body, i);
        i := i + 1;
      }
      assert body[..i] == body;
    }

    // One step of FeedLines: the line at `i` is handled.
    method FeedOne(ghost f0: Flow, body: seq<string>, i: nat)
      requires Valid() && i < |body|
      requires State() == Feed(port, f0, body[..i])
      modifies this, q, q.Repr
      ensures Valid() && fresh(q.Repr - old(q.Repr))
      ensures State() == Feed(port, f0, body[..i + 1])
    {
      FeedSnoc(port, f0, body, i);
      HandleOne(body[i]);
    }

    method OnIncomingData(data: string)
      requires Valid()
      modifies this, q, q.Repr
      ensures Valid() && fresh(q.Repr - old(q.Repr))
      ensures State() == Incoming(port, old(State()), data)
    {
      latestData := latestData + data;
      var lines := Lines(latestData, 1);
      if |lines| <= 1 {
        return;
      }
      FeedLines(lines[..|lines| - 1]);
      latestData := lines[|lines| - 1];
    }
  }

  // BreakApartCommands' two loops; the flow's state is not touched.
  method BreakApartCommands(cmd: string) returns (newFinalCmds: seq<string>)
    ensures newFinalCmds == BreakApart(cmd)
  {
    var cmds := Split(MarkSingles(cmd), "\n");
    var finalCmds: seq<string>;
    if |cmds| == 1 {
      var item := cmds[0];
      var single := HasSingleScan(item);
      if single {
        finalCmds := [item];
      } else {
        finalCmds := [item + "\n"];
      }
    } else {
      finalCmds := KeepLoop(cmds);
    }
    newFinalCmds := RewriteLoop(finalCmds);
  }

  // The first loop, over two or more pieces.
  method KeepLoop(cmds: seq<string>) returns (finalCmds: seq<string>)
    requires |cmds| >= 1
    ensures finalCmds == KeepPieces(cmds)
  {
    finalCmds := [];
    var index := 0;
    while index < |cmds|
      invariant 0 <= index <= |cmds|
      invariant index < |cmds| ==> finalCmds + KeepPieces(cmds[index..]) == KeepPieces(cmds)
      invariant index == |cmds| ==> finalCmds == KeepPieces(cmds)
    {
      var item := cmds[index];
      var single := HasSingleScan(item);
      if index < |cmds| - 1 {
        assert cmds[index..][1..] == cmds[index + 1..];
      }
      if single {
        finalCmds := finalCmds + [item];
      } else if index < |cmds| - 1 {
        finalCmds := finalCmds + [item + "\n"];
      }
      index := index + 1;
    }
  }

  // The second loop: the JSON-mode rewriting.
  method RewriteLoop(finalCmds: seq<string>) returns (newFinalCmds: seq<string>)
    ensures newFinalCmds == RewriteAll(finalCmds)
  {
    newFinalCmds := [];
    var k := 0;
    while k < |finalCmds|
      invariant 0 <= k <= |finalCmds|
      invariant newFinalCmds == RewriteAll(finalCmds[..k])
    {
      var item := finalCmds[k];
      var rewritten := RewriteOne(item);
      RewriteAllSnoc(finalCmds, k);
      newFinalCmds := newFinalCmds + rewritten;
      k := k + 1;
    }
    assert finalCmds[..k] == finalCmds;
  }

  lemma RewriteAllSnoc(items: seq<string>, k: nat)
    requires k < |items|
    ensures RewriteAll(items[..k + 1]) == RewriteAll(items[..k]) + Rewrite(items[k])
  {
    assert items[..k + 1][..k] == items[..k];
  }

  // The body of the second loop.
  method RewriteOne(item: string) returns (out: seq<string>)
    ensures out == Rewrite(item)
  {
    if Index(item, "$jv=0").Some? || Index(item, "{\"jv\":0}").Some? {
      out := ["{\"jv\":1}\n"];
    } else if Index(item, "$ec=1").Some? || Index(item, "{\"ec\":1}").Some? {
      out := ["{\"ec\":0}\n"];
    } else {
      out := [item];
    }
    assert out == [Replace(item)];
    if item != [] && (item[0] == '$' || item[0] == '?') {
      out := out + [EnableJson()];
    }
  }

  // reSingle.MatchString, as a scan.
  method HasSingleScan(s: string) returns (b: bool)
    ensures b <==> HasSingle(s)
  {
    var i := 0;
    while i < |s|
      invariant 0 <= i <= |s|
      invariant forall j :: 0 <= j < i ==> !IsSingle(s[j])
    {
      if IsSingle(s[i]) {
        return true;
      }
      i := i + 1;
    }
    return false;
  }
}
