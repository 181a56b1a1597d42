// Go's utf8.DecodeRune and the rune-to-string conversion the serial
// reader uses, following the well-formed byte sequences of section 4 of
// RFC 3629. Bytes are integers 0..255, runes integers.
module Utf8 {
  import opened Bytes

  const RuneError: int := 0xFFFD

  predicate InRange(b: byte, lo: int, hi: int) { lo <= b <= hi }

  // The range the second byte must lie in after lead byte `b0`
  // (Go's acceptRanges).
  function SecondLo(b0: byte): int
  {
    if b0 == 0xE0 then 0xA0 else if b0 == 0xF0 then 0x90 else 0x80
  }

  function SecondHi(b0: byte): int
  {
    if b0 == 0xED then 0x9F else if b0 == 0xF4 then 0x8F else 0xBF
  }

  // The length of the sequence a lead byte announces, 0 for a byte that
  // cannot start one (continuation bytes, C0, C1 and F5..FF).
  function LeadSize(b0: byte): nat
  {
    if b0 < 0x80 then 1
    else if b0 < 0xC2 then 0
    else if b0 < 0xE0 then 2
    else if b0 < 0xF0 then 3
    else if b0 < 0xF5 then 4
    else 0
  }

  predicate IsCont(b: byte) { 0x80 <= b <= 0xBF }

  // utf8.DecodeRune: the first rune of `p` and its width. Anything
  // invalid or incomplete gives (RuneError, 1), and the empty input
  // (RuneError, 0).
  function DecodeRune(p: seq<byte>): (r: (int, nat))
    ensures p == [] <==> r.1 == 0
    ensures p != [] ==> 1 <= r.1 <= |p| && r.1 <= 4
    ensures p != [] && r.0 != RuneError ==> r.1 == LeadSize(p[0])
  {
    if p == [] then (RuneError, 0)
    else
      var b0 := p[0];
      var sz := LeadSize(b0);
      if sz == 1 then (b0, 1)
      else if sz == 0 || |p| < sz then (RuneError, 1)
      else if !InRange(p[1], SecondLo(b0), SecondHi(b0)) then (RuneError, 1)
      else if sz == 2 then ((b0 as int - 0xC0) * 64 + (p[1] as int - 0x80), 2)
      else if !IsCont(p[2]) then (RuneError, 1)
      else if sz == 3 then ((b0 as int - 0xE0) * 4096 + (p[1] as int - 0x80) * 64 + (p[2] as int - 0x80), 3)
      else if !IsCont(p[3]) then (RuneError, 1)
      else ((b0 as int - 0xF0) * 262144 + (p[1] as int - 0x80) * 4096 + (p[2] as int - 0x80) * 64 + (p[3] as int - 0x80), 4)
  }

  // string(r) for a rune r: its UTF-8 encoding; surrogates and values
  // beyond U+10FFFF become the encoding of U+FFFD.
  function EncodeRune(r: int): (e: seq<byte>)
    requires 0 <= r
    ensures 1 <= |e| <= 4
  {
    if r < 0x80 then [r]
    else if r < 0x800 then [0xC0 + r / 64, 0x80 + r % 64]
    else if 0xD800 <= r <= 0xDFFF || r > 0x10FFFF then [0xEF, 0xBF, 0xBD]
    else if r < 0x10000 then [0xE0 + r / 4096, 0x80 + (r / 64) % 64, 0x80 + r % 64]
    else [0xF0 + r / 262144, 0x80 + (r / 4096) % 64, 0x80 + (r / 64) % 64, 0x80 + r % 64]
  }

  lemma Div64(a: int, b: int)
    requires 0 <= a && 0 <= b < 64
    ensures (a * 64 + b) / 64 == a && (a * 64 + b) % 64 == b
  {
  }

  lemma Decode2(p: seq<byte>)
    requires |p| >= 2 && LeadSize(p[0]) == 2 && IsCont(p[1])
    ensures var r := (p[0] as int - 0xC0) * 64 + (p[1] as int - 0x80);
      0x80 <= r < 0x800 && EncodeRune(r) == p[..2]
  {
    Div64(p[0] as int - 0xC0, p[1] - 0x80);
  }

  lemma Decode3(p: seq<byte>)
    requires |p| >= 3 && LeadSize(p[0]) == 3
    requires InRange(p[1], SecondLo(p[0]), SecondHi(p[0])) && IsCont(p[2])
    ensures var r := (p[0] as int - 0xE0) * 4096 + (p[1] as int - 0x80) * 64 + (p[2] as int - 0x80);
      0x800 <= r < 0x10000 && !(0xD800 <= r <= 0xDFFF) && EncodeRune(r) == p[..3]
  {
    var a: int, b: int, c: int := p[0] as int - 0xE0, p[1] as int - 0x80, p[2] as int - 0x80;
    var r := a * 4096 + b * 64 + c;
    assert r == (a * 64 + b) * 64 + c;
    Div64(a * 64 + b, c);
    Div64(a, b);
  }

  lemma Decode4(p: seq<byte>)
    requires |p| >= 4 && LeadSize(p[0]) == 4
    requires InRange(p[1], SecondLo(p[0]), SecondHi(p[0])) && IsCont(p[2]) && IsCont(p[3])
    ensures var r := (p[0] as int - 0xF0) * 262144 + (p[1] as int - 0x80) * 4096 + (p[2] as int - 0x80) * 64 + (p[3] as int - 0x80);
      0x10000 <= r <= 0x10FFFF && EncodeRune(r) == p[..4]
  {
    var a: int, b: int, c: int, d: int := p[0] as int - 0xF0, p[1] as int - 0x80, p[2] as int - 0x80, p[3] as int - 0x80;
    var r := a * 262144 + b * 4096 + c * 64 + d;
    assert r == ((a * 64 + b) * 64 + c) * 64 + d;
    Div64((a * 64 + b) * 64 + c, d);
    Div64(a * 64 + b, c);
    Div64(a, b);
    assert r / 262144 == (r / 64) / 4096;
  }

  // A rune DecodeRune accepts encodes back to exactly the bytes it was
  // read from.
  lemma EncodeDecoded(p: seq<byte>)
    requires p != [] && DecodeRune(p).0 != RuneError
    ensures DecodeRune(p).0 >= 0 && EncodeRune(DecodeRune(p).0) == p[..DecodeRune(p).1]
  {
    var sz := LeadSize(p[0]);
    if sz == 2 { Decode2(p); }
    else if sz == 3 { Decode3(p); }
    else if sz == 4 { Decode4(p); }
  }

  // Only the bytes of the decoded rune are looked at.
  lemma DecodeExtend(p: seq<byte>, x: seq<byte>)
    requires p != [] && DecodeRune(p).0 != RuneError
    ensures DecodeRune(p + x) == DecodeRune(p)
  {
    assert (p + x)[0] == p[0];
    var sz := LeadSize(p[0]);
    if sz >= 2 { assert (p + x)[1] == p[1]; }
    if sz >= 3 { assert (p + x)[2] == p[2]; }
    if sz >= 4 { assert (p + x)[3] == p[3]; }
  }

  // The default-mode decoding loop of the reader: runes are decoded from
  // the front and emitted; at the first RuneError the rest is held back.
  // The result is (data emitted, bytes held back). The reader emits each
  // rune re-encoded, which EncodeDecoded shows are the bytes it was read
  // from.
  function DecodeAll(p: seq<byte>): (r: (seq<byte>, seq<byte>))
    decreases |p|
  {
    if p == [] then ([], [])
    else
      var (rn, w) := DecodeRune(p);
      if rn == RuneError then ([], p)
      else
        var rest := DecodeAll(p[w..]);
        (p[..w] + rest.0, rest.1)
  }

  // One rune of the decoding loop, emitted as its re-encoding.
  lemma DecodeAllStep(p: seq<byte>)
    requires p != []
    ensures DecodeRune(p).0 == RuneError ==> DecodeAll(p) == ([], p)
    ensures DecodeRune(p).0 != RuneError ==>
      DecodeRune(p).0 >= 0 &&
      DecodeAll(p).0 == EncodeRune(DecodeRune(p).0) + DecodeAll(p[DecodeRune(p).1..]).0 &&
      DecodeAll(p).1 == DecodeAll(p[DecodeRune(p).1..]).1
  {
    if DecodeRune(p).0 != RuneError {
      EncodeDecoded(p);
    }
  }

  // Bytes that decode in full: what RFC 3629 calls well-formed, except
  // for the encoding of U+FFFD itself.
  predicate Decodable(p: seq<byte>)
  {
    DecodeAll(p).1 == []
  }

  // Nothing is lost or duplicated: the emitted bytes followed by the
  // held-back bytes are the input.
  lemma {:induction false} DecodeAllSplits(p: seq<byte>)
    ensures DecodeAll(p).0 + DecodeAll(p).1 == p
    decreases |p|
  {
    if p == [] {
    } else if DecodeRune(p).0 == RuneError {
      DecodeAllStep(p);
    } else {
      var w := DecodeRune(p).1;
      DecodeAllSplits(p[w..]);
      assert p == p[..w] + p[w..];
    }
  }

  // What is held back is held back again in full: it is empty or starts
  // where DecodeRune fails.
  lemma {:induction false} HeldBackStuck(p: seq<byte>)
    ensures DecodeAll(DecodeAll(p).1) == ([], DecodeAll(p).1)
    decreases |p|
  {
    if p != [] {
      var d := DecodeRune(p);
      if d.0 != RuneError {
        assert DecodeAll(p).1 == DecodeAll(p[d.1..]).1;
        HeldBackStuck(p[d.1..]);
      }
    }
  }

  // If `p` is a prefix of a decodable `t`, the emitted part of `p` ends
  // on a rune boundary of `t`: the rest of `t` is decodable again.
  lemma {:induction false} PrefixBoundary(p: seq<byte>, t: seq<byte>)
    requires p <= t && Decodable(t)
    ensures |DecodeAll(p).0| <= |t| && Decodable(t[|DecodeAll(p).0|..])
    decreases |p|
  {
    DecodeAllSplits(p);
    if p != [] {
      var (rn, w) := DecodeRune(p);
      if rn != RuneError {
        DecodeExtend(p, t[|p|..]);
        assert p + t[|p|..] == t;
        assert p[w..] <= t[w..];
        PrefixBoundary(p[w..], t[w..]);
        assert t[w..][|DecodeAll(p[w..]).0|..] == t[|DecodeAll(p).0|..];
      }
    }
  }

  // A decodable input is emitted whole.
  lemma DecodableEmitted(p: seq<byte>)
    requires Decodable(p)
    ensures DecodeAll(p).0 == p
  {
    DecodeAllSplits(p);
  }

  // An encoded U+FFFD is well-formed UTF-8, yet it decodes to RuneError
  // and is held back like an incomplete sequence.
  lemma ReplacementCharHeldBack()
    ensures DecodeRune([0xEF, 0xBF, 0xBD]) == (RuneError, 3)
    ensures DecodeAll([0xEF, 0xBF, 0xBD]) == ([], [0xEF, 0xBF, 0xBD])
  {
  }

  // A prefix of a longer sequence is held back, whatever follows later.
  lemma IncompleteHeldBack(p: seq<byte>)
    requires |p| >= 1 && LeadSize(p[0]) > |p|
    ensures DecodeAll(p) == ([], p)
  {
  }

  // A byte that cannot start a sequence, or an encoded U+FFFD, at the
  // front blocks decoding of everything after it.
  predicate Blocking(p: seq<byte>)
  {
    |p| >= 1 && (LeadSize(p[0]) == 0 || (|p| >= 3 && p[..3] == [0xEF, 0xBF, 0xBD]))
  }

  lemma BlockingStays(p: seq<byte>, x: seq<byte>)
    requires Blocking(p)
    ensures Blocking(p + x) && DecodeAll(p + x) == ([], p + x)
  {
    assert (p + x)[0] == p[0];
    if LeadSize(p[0]) != 0 {
      assert (p + x)[..3] == p[..3];
    }
  }
}
