// Go strings are byte strings. The model writes them as sequences of
// characters, one character per byte, and converts to and from byte
// sequences where the source does ([]byte(s), string(b)).
module Bytes {

  type byte = x: int | 0 <= x < 256

  // Concatenation of a sequence of chunks (the bytes or text of several
  // messages one after the other).
  function Flatten<T>(xs: seq<seq<T>>): (r: seq<T>)
    ensures xs == [] ==> r == []
  {
    if xs == [] then [] else Flatten(xs[..|xs| - 1]) + xs[|xs| - 1]
  }

  lemma FlattenSnoc<T>(xs: seq<seq<T>>, x: seq<T>)
    ensures Flatten(xs + [x]) == Flatten(xs) + x
  {
    assert (xs + [x])[..|xs + [x]| - 1] == xs;
  }

  lemma {:induction false} FlattenAppend<T>(xs: seq<seq<T>>, ys: seq<seq<T>>)
    ensures Flatten(xs + ys) == Flatten(xs) + Flatten(ys)
    decreases |ys|
  {
    if ys == [] {
      assert xs + ys == xs;
    } else {
      var init := ys[..|ys| - 1];
      assert xs + ys == (xs + init) + [ys[|ys| - 1]];
      assert ys == init + [ys[|ys| - 1]];
      FlattenAppend(xs, init);
      FlattenSnoc(xs + init, ys[|ys| - 1]);
      FlattenSnoc(init, ys[|ys| - 1]);
    }
  }

  // A sequence cut in two and glued back together.
  lemma Rejoin<T>(s: seq<T>, i: nat)
    requires i <= |s|
    ensures s[..i] + s[i..] == s
  {
  }

  // A sequence around one of its elements.
  lemma SplitAround<T>(s: seq<T>, i: nat)
    requires i < |s|
    ensures s[..i] + [s[i]] + s[i + 1..] == s
  {
  }

  // A slice up to the end is the suffix.
  lemma SliceToEnd<T>(s: seq<T>, i: nat)
    requires i <= |s|
    ensures s[i..|s|] == s[i..]
  {
  }

  lemma AppendAssoc<T>(a: seq<T>, b: seq<T>, c: seq<T>)
    ensures a + (b + c) == (a + b) + c
  {
  }

  lemma AppendEmpty<T>(a: seq<T>)
    ensures a + [] == a
  {
  }

  // The two halves of a concatenation.
  lemma CutConcat<T>(a: seq<T>, b: seq<T>)
    ensures (a + b)[..|a|] == a && (a + b)[|a|..] == b
  {
  }

  lemma FlattenCons<T>(x: seq<T>, xs: seq<seq<T>>)
    ensures Flatten([x] + xs) == x + Flatten(xs)
  {
    FlattenAppend([x], xs);
    FlattenSnoc([], x);
    assert [] + [x] == [x];
  }

  // A string all of whose characters stand for bytes.
  predicate IsByteString(s: string)
  {
    forall i :: 0 <= i < |s| ==> s[i] as int < 256
  }

  // []byte(s): the bytes of a byte string.
  function ToBytes(s: string): (r: seq<byte>)
    requires IsByteString(s)
    ensures |r| == |s|
    ensures forall i :: 0 <= i < |s| ==> r[i] == s[i] as int
  {
    seq(|s|, i requires 0 <= i < |s| => s[i] as int as byte)
  }

  // string(b): the byte string holding the bytes `b`.
  function FromBytes(b: seq<byte>): (r: string)
    ensures |r| == |b| && IsByteString(r)
    ensures forall i :: 0 <= i < |b| ==> r[i] as int == b[i]
  {
    seq(|b|, i requires 0 <= i < |b| => b[i] as char)
  }

  lemma BytesRoundTrip(s: string, b: seq<byte>)
    requires IsByteString(s)
    ensures FromBytes(ToBytes(s)) == s
    ensures ToBytes(FromBytes(b)) == b
  {
    assert forall i :: 0 <= i < |s| ==> FromBytes(ToBytes(s))[i] == s[i];
  }

  lemma ToBytesAppend(a: string, b: string)
    requires IsByteString(a) && IsByteString(b)
    ensures IsByteString(a + b) && ToBytes(a + b) == ToBytes(a) + ToBytes(b)
  {
  }

  lemma FromBytesAppend(a: seq<byte>, b: seq<byte>)
    ensures FromBytes(a + b) == FromBytes(a) + FromBytes(b)
  {
  }
}
