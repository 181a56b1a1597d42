// The `differ` helper that upload/utils.go and programmer/utils.go both
// define, word for word: the name that appears in exactly one of two
// port lists, found through a map of counts.
module Differ {

  // How often a value occurs in a list.
  function Occurrences(s: seq<string>, v: string): (n: nat)
    ensures n == multiset(s)[v]
  {
    if s == [] then 0
    else
      assert s == [s[0]] + s[1..];
      (if s[0] == v then 1 else 0) + Occurrences(s[1..], v)
  }

  // The count map the two loops build: every value of slice1 is set to 1
  // (not incremented), then every occurrence in slice2 adds 1.
  function Counts(slice1: seq<string>, slice2: seq<string>): (m: map<string, nat>)
  {
    map v | v in slice1 + slice2 :: (if v in slice1 then 1 else 0) + Occurrences(slice2, v)
  }

  // Every value of either list is counted, at least once: a value of
  // slice1 once however often it occurs there, plus its occurrences in
  // slice2.
  lemma CountsMeaning(slice1: seq<string>, slice2: seq<string>, v: string)
    ensures v in Counts(slice1, slice2) <==> v in slice1 || v in slice2
    ensures v in Counts(slice1, slice2) ==> Counts(slice1, slice2)[v] >= 1
    ensures v in slice1 ==> Counts(slice1, slice2)[v] == 1 + multiset(slice2)[v]
    ensures v !in slice1 && v in slice2 ==> Counts(slice1, slice2)[v] == multiset(slice2)[v]
  {
    if v in slice2 {
      assert multiset(slice2)[v] > 0;
    }
  }

  // The values whose count is exactly 1: those of slice1 that slice2
  // lacks, and those slice1 lacks that slice2 holds exactly once.
  function Candidates(slice1: seq<string>, slice2: seq<string>): (c: set<string>)
    ensures forall v :: v in c <==> (v in slice1 && v !in slice2) || (v !in slice1 && Occurrences(slice2, v) == 1)
  {
    set v | v in Counts(slice1, slice2) && Counts(slice1, slice2)[v] == 1
  }

  // The map after the first loop has seen `p`.
  function Ones(p: seq<string>): map<string, nat>
  {
    map v | v in p :: 1
  }

  lemma OnesSnoc(p: seq<string>, x: string)
    ensures Ones(p + [x]) == Ones(p)[x := 1]
  {
  }

  // differ: the two counting loops, then the scan of the map. Go visits a
  // map in no fixed order, so the scan picks any key of count 1.
  method Compute(slice1: seq<string>, slice2: seq<string>) returns (r: string)
    ensures r in Candidates(slice1, slice2) || (r == "" && Candidates(slice1, slice2) == {})
  {
    var m: map<string, nat> := map[];
    var i := 0;
    while i < |slice1|
      invariant 0 <= i <= |slice1|
      invariant m == Ones(slice1[..i])
    {
      m := MarkOne(slice1, i, m);
      i := i + 1;
    }
    assert slice1[..i] == slice1;
    assert m == Counts(slice1, slice2[..0]);
    i := 0;
    while i < |slice2|
      invariant 0 <= i <= |slice2|
      invariant m == Counts(slice1, slice2[..i])
    {
      m := CountOne(slice1, slice2, i, m);
      i := i + 1;
    }
    assert slice2[..i] == slice2;
    if k :| k in m && m[k] == 1 {
      r := k;
    } else {
      r := "";
    }
  }

  // The first loop's body: the value is set to 1.
  method MarkOne(slice1: seq<string>, i: nat, m: map<string, nat>) returns (m': map<string, nat>)
    requires i < |slice1| && m == Ones(slice1[..i])
    ensures m' == Ones(slice1[..i + 1])
  {
    OnesSnoc(slice1[..i], slice1[i]);
    assert slice1[..i + 1] == slice1[..i] + [slice1[i]];
    m' := m[slice1[i] := 1];
  }

  // The second loop's body: the value's count, 0 when missing, goes up
  // by one.
  method CountOne(slice1: seq<string>, slice2: seq<string>, i: nat, m: map<string, nat>) returns (m': map<string, nat>)
    requires i < |slice2| && m == Counts(slice1, slice2[..i])
    ensures m' == Counts(slice1, slice2[..i + 1])
  {
    var s2Val := slice2[i];
    var before := if s2Val in m then m[s2Val] else 0;
    CountsSnoc(slice1, slice2[..i], s2Val);
    assert slice2[..i + 1] == slice2[..i] + [s2Val];
    m' := m[s2Val := before + 1];
  }

  // One more value from slice2 adds one to its count, starting from 0.
  lemma CountsSnoc(slice1: seq<string>, p: seq<string>, x: string)
    ensures Counts(slice1, p + [x])
         == Counts(slice1, p)[x := (if x in Counts(slice1, p) then Counts(slice1, p)[x] else 0) + 1]
  {
    OccurrencesSnoc(p, x);
  }

  lemma OccurrencesSnoc(s: seq<string>, x: string)
    ensures forall v :: Occurrences(s + [x], v) == Occurrences(s, v) + (if v == x then 1 else 0)
  {
  }

  // The three cases the package's tests pin down: nothing from two empty
  // lists, and the new name whichever list it is in.
  lemma TestedCases()
    ensures Candidates([], []) == {}
    ensures Candidates(["a", "b"], ["b"]) == {"a"}
    ensures Candidates(["b"], ["a", "b"]) == {"a"}
  {
    assert "a" in Candidates(["a", "b"], ["b"]);
    assert Occurrences(["a", "b"], "a") == 1;
    assert "a" in Candidates(["b"], ["a", "b"]);
  }
}
