// The Wagner-Fischer edit distance of the vendored smetrics package
// (vendor/github.com/xrash/smetrics/wagner-fischer.go): two rows of the
// dynamic-programming table, filled by nested loops and swapped after each
// row. Strings are byte strings, one char per byte.
module WagnerFischer {

  // The cheapest of the three costs, ties going to the substitution cost,
  // then to the deletion cost.
  function LowerCost(icost: int, dcost: int, scost: int): (r: int)
    ensures r <= icost && r <= dcost && r <= scost
    ensures r == icost || r == dcost || r == scost
  {
    if icost < dcost && icost < scost then icost
    else if dcost < scost then dcost
    else scost
  }

  // The choice a mismatching cell makes between an insertion, a deletion
  // and a substitution: the least of the three, ties going to the
  // substitution, then to the deletion.
  function Pick(ins: int, del: int, sub: int): (r: int)
    ensures r <= ins && r <= del && r <= sub
    ensures r == ins || r == del || r == sub
    ensures sub <= ins && sub <= del ==> r == sub
    ensures del < sub && del <= ins ==> r == del
  {
    if ins < del && ins < sub then ins
    else if del < sub then del
    else sub
  }

  // The table cell for the first `j` bytes of `a` (the columns) and the
  // first `i` bytes of `b` (the rows). A matching cell copies its
  // diagonal neighbour.
  function Cell(a: string, b: string, i: nat, j: nat, icost: int, dcost: int, scost: int): int
    requires i <= |b| && j <= |a|
    decreases i + j
  {
    if i == 0 then j * LowerCost(icost, dcost, scost)
    else if j == 0 then i * LowerCost(icost, dcost, scost)
    else if a[j - 1] == b[i - 1] then Cell(a, b, i - 1, j - 1, icost, dcost, scost)
    else Pick(Cell(a, b, i, j - 1, icost, dcost, scost) + icost,
              Cell(a, b, i - 1, j, icost, dcost, scost) + dcost,
              Cell(a, b, i - 1, j - 1, icost, dcost, scost) + scost)
  }

  // What WagnerFischer(a, b, ...) returns: the last cell of the table, the
  // shorter string spanning the columns.
  function Distance(a: string, b: string, icost: int, dcost: int, scost: int): (r: int)
    ensures |a| == 0 ==> r == |b| * LowerCost(icost, dcost, scost)
    ensures |b| == 0 ==> r == |a| * LowerCost(icost, dcost, scost)
  {
    if |a| > |b| then Cell(b, a, |a|, |b|, icost, dcost, scost)
    else Cell(a, b, |b|, |a|, icost, dcost, scost)
  }

  // WagnerFischer as the source computes it.
  method Compute(a0: string, b0: string, icost: int, dcost: int, scost: int) returns (d: int)
    ensures d == Distance(a0, b0, icost, dcost, scost)
  {
    var a, b := a0, b0;
    if |a| > |b| {
      a, b := b0, a0;
    }
    var lowerCost := LowerCost(icost, dcost, scost);
    var row1 := new int[|a| + 1](_ => 0);
    var row2 := new int[|a| + 1](_ => 0);
    var i := 1;
    while i <= |a|
      invariant 1 <= i <= |a| + 1
      invariant row1[0] == 0
      invariant forall j {:trigger row1[j]} :: 0 <= j < i ==> row1[j] == Cell(a, b, 0, j, icost, dcost, scost)
    {
      row1[i] := i * lowerCost;
      i := i + 1;
    }
    i := 1;
    while i <= |b|
      invariant 1 <= i <= |b| + 1
      invariant fresh(row1) && fresh(row2)
      invariant row1 != row2 && row1.Length == row2.Length == |a| + 1
      invariant forall j {:trigger row1[j]} :: 0 <= j <= |a| ==> row1[j] == Cell(a, b, i - 1, j, icost, dcost, scost)
    {
      FillRow(a, b, i, icost, dcost, scost, row1, row2);
      row1, row2 := row2, row1;
      i := i + 1;
    }
    d := row1[row1.Length - 1];
  }

  // One row of the table: row2 becomes row `i`, computed from row1,
  // which holds row i - 1.
  method FillRow(a: string, b: string, i: nat, icost: int, dcost: int, scost: int, row1: array<int>, row2: array<int>)
    requires 1 <= i <= |b|
    requires row1 != row2 && row1.Length == row2.Length == |a| + 1
    requires forall k {:trigger row1[k]} :: 0 <= k <= |a| ==> row1[k] == Cell(a, b, i - 1, k, icost, dcost, scost)
    modifies row2
    ensures forall k {:trigger row1[k]} :: 0 <= k <= |a| ==> row1[k] == Cell(a, b, i - 1, k, icost, dcost, scost)
    ensures forall k {:trigger row2[k]} :: 0 <= k <= |a| ==> row2[k] == Cell(a, b, i, k, icost, dcost, scost)
  {
    row2[0] := row1[0] + LowerCost(icost, dcost, scost);
    var j := 1;
    while j <= |a|
      invariant 1 <= j <= |a| + 1
      invariant forall k {:trigger row1[k]} :: 0 <= k <= |a| ==> row1[k] == Cell(a, b, i - 1, k, icost, dcost, scost)
      invariant forall k {:trigger row2[k]} :: 0 <= k < j ==> row2[k] == Cell(a, b, i, k, icost, dcost, scost)
    {
      var v: int;
      if a[j - 1] == b[i - 1] {
        v := row1[j - 1];
      } else {
        var ins := row2[j - 1] + icost;
        var del := row1[j] + dcost;
        var sub := row1[j - 1] + scost;
        if ins < del && ins < sub {
          v := ins;
        } else if del < sub {
          v := del;
        } else {
          v := sub;
        }
      }
      assert v == Cell(a, b, i, j, icost, dcost, scost);
      row2[j] := v;
      j := j + 1;
    }
  }

  // Comparing a string with itself costs nothing, whatever the costs:
  // every cell on the diagonal copies the one before it.
  lemma {:induction false} DiagonalZero(s: string, i: nat, icost: int, dcost: int, scost: int)
    requires i <= |s|
    ensures Cell(s, s, i, i, icost, dcost, scost) == 0
  {
    if i > 0 {
      DiagonalZero(s, i - 1, icost, dcost, scost);
    }
  }

  lemma SameStringZero(s: string, icost: int, dcost: int, scost: int)
    ensures Distance(s, s, icost, dcost, scost) == 0
  {
    DiagonalZero(s, |s|, icost, dcost, scost);
  }

  // With non-negative costs no distance is negative.
  lemma {:induction false} CellNonNegative(a: string, b: string, i: nat, j: nat, icost: nat, dcost: nat, scost: nat)
    requires i <= |b| && j <= |a|
    ensures Cell(a, b, i, j, icost, dcost, scost) >= 0
    decreases i + j
  {
    if i == 0 || j == 0 {
      EdgeNonNegative(a, b, i, j, icost, dcost, scost);
    } else {
      var diag := Cell(a, b, i - 1, j - 1, icost, dcost, scost);
      CellNonNegative(a, b, i - 1, j - 1, icost, dcost, scost);
      if a[j - 1] != b[i - 1] {
        var left := Cell(a, b, i, j - 1, icost, dcost, scost);
        var up := Cell(a, b, i - 1, j, icost, dcost, scost);
        CellNonNegative(a, b, i, j - 1, icost, dcost, scost);
        CellNonNegative(a, b, i - 1, j, icost, dcost, scost);
        assert Cell(a, b, i, j, icost, dcost, scost) == Pick(left + icost, up + dcost, diag + scost);
      } else {
        assert Cell(a, b, i, j, icost, dcost, scost) == diag;
      }
    }
  }

  // A cell on the first row or column costs a multiple of the cheapest cost.
  lemma EdgeNonNegative(a: string, b: string, i: nat, j: nat, icost: nat, dcost: nat, scost: nat)
    requires i <= |b| && j <= |a| && (i == 0 || j == 0)
    ensures Cell(a, b, i, j, icost, dcost, scost) >= 0
  {
    var n := if i == 0 then j else i;
    var c := LowerCost(icost, dcost, scost);
    assert Cell(a, b, i, j, icost, dcost, scost) == n * c;
    assert c >= 0;
  }

  function Min3(x: int, y: int, z: int): (r: int)
    ensures r <= x && r <= y && r <= z
    ensures r == x || r == y || r == z
  {
    if x <= y && x <= z then x else if y <= z then y else z
  }

  // The textbook Levenshtein distance, by recursion on the last byte of
  // each string: an independent reference for unit costs.
  function Lev(x: string, y: string): (r: nat)
    decreases |x| + |y|
  {
    if |x| == 0 then |y|
    else if |y| == 0 then |x|
    else
      var x1, y1 := x[..|x| - 1], y[..|y| - 1];
      Min3(Lev(x1, y) + 1, Lev(x, y1) + 1, Lev(x1, y1) + (if x[|x| - 1] == y[|y| - 1] then 0 else 1))
  }

  // Dropping the last byte of either string changes the distance by at
  // most one.
  lemma {:induction false} LevDropLast(x: string, y: string)
    ensures |x| > 0 ==> Lev(x[..|x| - 1], y) <= Lev(x, y) + 1
    ensures |y| > 0 ==> Lev(x, y[..|y| - 1]) <= Lev(x, y) + 1
    decreases |x| + |y|
  {
    if |x| > 0 && |y| > 0 {
      var x1, y1 := x[..|x| - 1], y[..|y| - 1];
      LevDropLast(x, y1);
      LevDropLast(x1, y);
      LevStep(x1, y);
      LevStep(x, y1);
    }
  }

  // Adding a byte to either string costs at most one.
  lemma LevStep(x: string, y: string)
    ensures |x| > 0 ==> Lev(x, y) <= Lev(x[..|x| - 1], y) + 1
    ensures |y| > 0 ==> Lev(x, y) <= Lev(x, y[..|y| - 1]) + 1
  {
  }

  // Under unit costs every cell of the table is the Levenshtein distance
  // of the two prefixes it stands for.
  lemma {:induction false} CellIsLev(a: string, b: string, i: nat, j: nat)
    requires i <= |b| && j <= |a|
    ensures Cell(a, b, i, j, 1, 1, 1) == Lev(a[..j], b[..i])
    decreases i + j
  {
    var x, y := a[..j], b[..i];
    if i > 0 && j > 0 {
      assert x[..|x| - 1] == a[..j - 1] && y[..|y| - 1] == b[..i - 1];
      CellIsLev(a, b, i - 1, j - 1);
      if a[j - 1] == b[i - 1] {
        MatchIsDiagonal(x, y);
      } else {
        CellIsLev(a, b, i, j - 1);
        CellIsLev(a, b, i - 1, j);
        var left, up, diag := Lev(x, b[..i - 1]), Lev(a[..j - 1], y), Lev(a[..j - 1], b[..i - 1]);
        assert Cell(a, b, i, j, 1, 1, 1) == Pick(up + 1, left + 1, diag + 1);
        assert Lev(x, y) == Min3(left + 1, up + 1, diag + 1);
      }
    }
  }

  // When the last bytes agree the distance is that of the two shorter
  // prefixes: the diagonal never loses to an insertion or a deletion.
  lemma MatchIsDiagonal(x: string, y: string)
    requires |x| > 0 && |y| > 0 && x[|x| - 1] == y[|y| - 1]
    ensures Lev(x, y) == Lev(x[..|x| - 1], y[..|y| - 1])
  {
    var x1, y1 := x[..|x| - 1], y[..|y| - 1];
    LevDropLast(x1, y);
    LevDropLast(x, y1);
    assert y[..|y| - 1] == y1 && x[..|x| - 1] == x1;
    LevStep(x1, y);
    LevStep(x, y1);
  }

  lemma {:induction false} LevSymmetric(x: string, y: string)
    ensures Lev(x, y) == Lev(y, x)
    decreases |x| + |y|
  {
    if |x| > 0 && |y| > 0 {
      LevSymmetric(x[..|x| - 1], y);
      LevSymmetric(x, y[..|y| - 1]);
      LevSymmetric(x[..|x| - 1], y[..|y| - 1]);
    }
  }

  // With every cost 1 the result is the byte-level Levenshtein distance.
  lemma UnitCostIsLevenshtein(a: string, b: string)
    ensures Distance(a, b, 1, 1, 1) == Lev(a, b)
  {
    assert a[..|a|] == a && b[..|b|] == b;
    if |a| > |b| {
      CellIsLev(b, a, |a|, |b|);
      LevSymmetric(a, b);
    } else {
      CellIsLev(a, b, |b|, |a|);
    }
  }

  // Under unit costs the distance lies between the length difference and
  // the longer length.
  lemma {:induction false} LevBounds(x: string, y: string)
    ensures Lev(x, y) <= (if |x| >= |y| then |x| else |y|)
    ensures Lev(x, y) >= (if |x| >= |y| then |x| - |y| else |y| - |x|)
    decreases |x| + |y|
  {
    if |x| > 0 && |y| > 0 {
      LevBounds(x[..|x| - 1], y);
      LevBounds(x, y[..|y| - 1]);
      LevBounds(x[..|x| - 1], y[..|y| - 1]);
    }
  }
}
