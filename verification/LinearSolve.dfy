/**
 Gauss-Jordan elimination with partial pivoting, over the reals, for square
 systems of any size: row operations keep the solution set, so the vector that
 comes out is the only solution.
 */
module LinearSolve {
  import opened Common

  type Vector = seq<real>

  function Dot(a: Vector, b: Vector): real
    requires |a| == |b|
  {
    if a == [] then 0.0 else a[0] * b[0] + Dot(a[1..], b[1..])
  }

  function Abs(x: real): real {
    if x < 0.0 then -x else x
  }

  function Divided(row: Vector, divisor: real): Vector
    requires divisor != 0.0
  {
    seq(|row|, i requires 0 <= i < |row| => row[i] / divisor)
  }

  function Reduced(row: Vector, factor: real, pivotRow: Vector): Vector
    requires |row| == |pivotRow|
  {
    seq(|row|, i requires 0 <= i < |row| => row[i] - factor * pivotRow[i])
  }

  function Scaled(factor: real, row: Vector): Vector {
    seq(|row|, i requires 0 <= i < |row| => factor * row[i])
  }

  function Added(a: Vector, b: Vector): Vector
    requires |a| == |b|
  {
    seq(|a|, i requires 0 <= i < |a| => a[i] + b[i])
  }

  // ---- the dot product is bilinear ----

  lemma {:induction false} DotAdded(a: Vector, b: Vector, z: Vector)
    requires |a| == |b| == |z|
    ensures Dot(Added(a, b), z) == Dot(a, z) + Dot(b, z)
  {
    if a != [] {
      assert Added(a, b)[1..] == Added(a[1..], b[1..]);
      DotAdded(a[1..], b[1..], z[1..]);
      AddTerm(a[0], b[0], z[0]);
    }
  }

  lemma AddTerm(x: real, y: real, z: real)
    ensures (x + y) * z == x * z + y * z
  {
  }

  lemma {:induction false} DotScaled(factor: real, a: Vector, z: Vector)
    requires |a| == |z|
    ensures Dot(Scaled(factor, a), z) == factor * Dot(a, z)
  {
    if a != [] {
      ScaledTail(factor, a);
      DotScaled(factor, a[1..], z[1..]);
      Distribute(factor, a[0], z[0], Dot(a[1..], z[1..]));
    }
  }

  lemma ScaledTail(factor: real, a: Vector)
    requires a != []
    ensures Scaled(factor, a)[1..] == Scaled(factor, a[1..])
  {
    forall i | 0 <= i < |a| - 1 ensures Scaled(factor, a)[1..][i] == Scaled(factor, a[1..])[i] {
      assert a[1..][i] == a[i + 1];
    }
  }

  lemma Distribute(f: real, x: real, y: real, w: real)
    ensures (f * x) * y + f * w == f * (x * y + w)
  {
  }

  lemma {:induction false} DotCommutes(a: Vector, b: Vector)
    requires |a| == |b|
    ensures Dot(a, b) == Dot(b, a)
  {
    if a != [] {
      DotCommutes(a[1..], b[1..]);
    }
  }

  lemma {:induction false} DotConcat(a: Vector, b: Vector, c: Vector, d: Vector)
    requires |a| == |c| && |b| == |d|
    ensures Dot(a + b, c + d) == Dot(a, c) + Dot(b, d)
  {
    if a == [] {
      NilUnit(b);
      NilUnit(d);
    } else {
      assert (a + b)[1..] == a[1..] + b && (c + d)[1..] == c[1..] + d;
      DotConcat(a[1..], b, c[1..], d);
    }
  }

  lemma {:induction false} DotDivided(row: Vector, divisor: real, z: Vector)
    requires |row| == |z| && divisor != 0.0
    ensures Dot(Divided(row, divisor), z) == Dot(row, z) / divisor
  {
    if row != [] {
      DividedTail(row, divisor);
      DotDivided(row[1..], divisor, z[1..]);
      DividedTerm(row[0], z[0], Dot(row[1..], z[1..]), divisor);
    }
  }

  lemma DividedTail(row: Vector, divisor: real)
    requires row != [] && divisor != 0.0
    ensures Divided(row, divisor)[1..] == Divided(row[1..], divisor)
  {
    forall i | 0 <= i < |row| - 1 ensures Divided(row, divisor)[1..][i] == Divided(row[1..], divisor)[i] {
      assert row[1..][i] == row[i + 1];
    }
  }

  lemma DividedTerm(x: real, z: real, w: real, d: real)
    requires d != 0.0
    ensures (x / d) * z + w / d == (x * z + w) / d
  {
    assert (x / d) * z == (x * z) / d;
  }

  lemma {:induction false} DotReduced(row: Vector, factor: real, pivotRow: Vector, z: Vector)
    requires |row| == |pivotRow| == |z|
    ensures Dot(Reduced(row, factor, pivotRow), z) == Dot(row, z) - factor * Dot(pivotRow, z)
  {
    if row != [] {
      ReducedTail(row, factor, pivotRow);
      DotReduced(row[1..], factor, pivotRow[1..], z[1..]);
      ReducedTerm(row[0], factor, pivotRow[0], z[0], Dot(row[1..], z[1..]), Dot(pivotRow[1..], z[1..]));
    }
  }

  lemma ReducedTail(row: Vector, factor: real, pivotRow: Vector)
    requires |row| == |pivotRow| && row != []
    ensures Reduced(row, factor, pivotRow)[1..] == Reduced(row[1..], factor, pivotRow[1..])
  {
    forall i | 0 <= i < |row| - 1
      ensures Reduced(row, factor, pivotRow)[1..][i] == Reduced(row[1..], factor, pivotRow[1..])[i]
    {
      assert row[1..][i] == row[i + 1] && pivotRow[1..][i] == pivotRow[i + 1];
    }
  }

  lemma ReducedTerm(x: real, f: real, p: real, z: real, w: real, v: real)
    ensures (x - f * p) * z + (w - f * v) == (x * z + w) - f * (p * z + v)
  {
  }

  ghost predicate Zero(a: Vector) {
    forall k :: 0 <= k < |a| ==> a[k] == 0.0
  }

  ghost predicate Unit(a: Vector, i: int) {
    forall k :: 0 <= k < |a| ==> a[k] == if k == i then 1.0 else 0.0
  }

  lemma {:induction false} DotZero(a: Vector, z: Vector)
    requires |a| == |z| && Zero(a)
    ensures Dot(a, z) == 0.0
  {
    if a != [] {
      DotZero(a[1..], z[1..]);
    }
  }

  lemma {:induction false} DotUnit(a: Vector, i: nat, z: Vector)
    requires |a| == |z| && i < |a| && Unit(a, i)
    ensures Dot(a, z) == z[i]
  {
    if i == 0 {
      assert Zero(a[1..]);
      DotZero(a[1..], z[1..]);
    } else {
      assert Unit(a[1..], i - 1);
      DotUnit(a[1..], i - 1, z[1..]);
    }
  }

  // ---- systems of equations ----

  /** `matrix` times `y` is `vector`. */
  ghost predicate IsSolution(matrix: seq<Vector>, vector: Vector, y: Vector) {
    && |matrix| == |vector| == |y|
    && forall i :: 0 <= i < |matrix| ==> |matrix[i]| == |y| && Dot(matrix[i], y) == vector[i]
  }

  ghost predicate Square(matrix: seq<Vector>, n: nat) {
    |matrix| == n && forall i :: 0 <= i < n ==> |matrix[i]| == n
  }

  /** Rows of n coefficients and a right-hand side. */
  ghost predicate Augmented(rows: seq<Vector>, n: nat) {
    |rows| == n && forall i :: 0 <= i < n ==> |rows[i]| == n + 1
  }

  /** Coefficients times y, minus the right-hand side. */
  ghost function Residual(row: Vector, y: Vector): real
    requires |row| == |y| + 1
  {
    Dot(row, y + [-1.0])
  }

  ghost predicate Solves(rows: seq<Vector>, y: Vector)
    requires Augmented(rows, |y|)
  {
    forall i :: 0 <= i < |rows| ==> Residual(rows[i], y) == 0.0
  }

  ghost predicate SameSolutions(rows: seq<Vector>, other: seq<Vector>, n: nat)
    requires Augmented(rows, n) && Augmented(other, n)
  {
    forall y: Vector :: |y| == n ==> (Solves(rows, y) <==> Solves(other, y))
  }

  function Augment(matrix: seq<Vector>, vector: Vector): seq<Vector>
    requires |matrix| == |vector|
  {
    seq(|matrix|, i requires 0 <= i < |matrix| => matrix[i] + [vector[i]])
  }

  lemma SolvesIsSolution(matrix: seq<Vector>, vector: Vector, y: Vector)
    requires Square(matrix, |y|) && |vector| == |y|
    ensures Solves(Augment(matrix, vector), y) <==> IsSolution(matrix, vector, y)
  {
    forall i | 0 <= i < |y|
      ensures Residual(Augment(matrix, vector)[i], y) == Dot(matrix[i], y) - vector[i]
    {
      DotConcat(matrix[i], [vector[i]], y, [-1.0]);
      assert [vector[i]][1..] == [] && [-1.0][1..] == [];
    }
  }

  lemma SwapKeepsSolutions(rows: seq<Vector>, i: nat, j: nat, n: nat)
    requires Augmented(rows, n) && i < n && j < n
    ensures SameSolutions(rows, rows[i := rows[j]][j := rows[i]], n)
  {
    var swapped := rows[i := rows[j]][j := rows[i]];
    forall y: Vector | |y| == n ensures Solves(rows, y) <==> Solves(swapped, y) {
      if Solves(swapped, y) {
        forall k | 0 <= k < n ensures Residual(rows[k], y) == 0.0 {
          assert rows[k] == swapped[if k == i then j else if k == j then i else k];
        }
      }
    }
  }

  lemma DivideKeepsSolutions(rows: seq<Vector>, i: nat, divisor: real, n: nat)
    requires Augmented(rows, n) && i < n && divisor != 0.0
    ensures SameSolutions(rows, rows[i := Divided(rows[i], divisor)], n)
  {
    var divided := rows[i := Divided(rows[i], divisor)];
    forall y: Vector | |y| == n ensures Solves(rows, y) <==> Solves(divided, y) {
      DotDivided(rows[i], divisor, y + [-1.0]);
      var r := Residual(rows[i], y);
      assert Residual(divided[i], y) == r / divisor;
      assert r / divisor == 0.0 <==> r == 0.0 by { assert r == (r / divisor) * divisor; }
      forall k | 0 <= k < n && k != i ensures divided[k] == rows[k] {
      }
      assert Residual(divided[i], y) == 0.0 <==> Residual(rows[i], y) == 0.0;
    }
  }

  lemma ReduceKeepsSolutions(rows: seq<Vector>, i: nat, pivot: nat, factor: real, n: nat)
    requires Augmented(rows, n) && i < n && pivot < n && i != pivot
    ensures SameSolutions(rows, rows[i := Reduced(rows[i], factor, rows[pivot])], n)
  {
    var reduced := rows[i := Reduced(rows[i], factor, rows[pivot])];
    forall y: Vector | |y| == n ensures Solves(rows, y) <==> Solves(reduced, y) {
      DotReduced(rows[i], factor, rows[pivot], y + [-1.0]);
      assert Residual(reduced[i], y) == Residual(rows[i], y) - factor * Residual(rows[pivot], y);
      assert reduced[pivot] == rows[pivot];
      if Residual(rows[pivot], y) == 0.0 {
        assert factor * Residual(rows[pivot], y) == 0.0;
        assert Residual(reduced[i], y) == Residual(rows[i], y);
      }
      forall k | 0 <= k < n && k != i ensures reduced[k] == rows[k] {
      }
    }
  }

  // ---- the algorithm ----

  /** The first `c` columns are the first `c` columns of the identity. */
  ghost predicate UnitColumns(rows: seq<Vector>, c: nat, n: nat)
    requires Augmented(rows, n) && c <= n
  {
    forall i, k :: 0 <= i < n && 0 <= k < c ==> rows[i][k] == if i == k then 1.0 else 0.0
  }

  method FindPivot(rows: array<Vector>, column: nat, n: nat) returns (pivot: nat)
    requires column < n && rows.Length == n && Augmented(rows[..], n)
    ensures column <= pivot < n
    ensures forall i :: column <= i < n ==> Abs(rows[..][i][column]) <= Abs(rows[..][pivot][column])
    ensures forall i :: column <= i < pivot ==> Abs(rows[..][i][column]) < Abs(rows[..][pivot][column])
  {
    pivot := column;
    assert forall i :: 0 <= i < n ==> |rows[..][i]| == |rows[i]| == n + 1;
    for row := column + 1 to n
      invariant column <= pivot < row
      invariant forall i :: column <= i < row ==> Abs(rows[i][column]) <= Abs(rows[pivot][column])
      invariant forall i :: column <= i < pivot ==> Abs(rows[i][column]) < Abs(rows[pivot][column])
    {
      if Abs(rows[row][column]) > Abs(rows[pivot][column]) {
        pivot := row;
      }
    }
  }

  lemma SameSolutionsTransitive(a: seq<Vector>, b: seq<Vector>, c: seq<Vector>, n: nat)
    requires Augmented(a, n) && Augmented(b, n) && Augmented(c, n)
    requires SameSolutions(a, b, n) && SameSolutions(b, c, n)
    ensures SameSolutions(a, c, n)
  {
  }

  const EPSILON: real := 0.000000000001

  datatype SolveError = Singular

  /** Of the first `done` rows all but the pivot's own have lost their multiple of it; the other rows are as they were. */
  ghost predicate Eliminated(before: seq<Vector>, rows: seq<Vector>, column: nat, done: nat, n: nat)
    requires Augmented(before, n) && |rows| == n && column < n && done <= n
  {
    forall i :: 0 <= i < n ==>
      rows[i] == if i < done && i != column then Reduced(before[i], before[i][column], before[column]) else before[i]
  }

  /** Elimination of one column from every row but its own. */
  method EliminateColumn(rows: array<Vector>, column: nat, n: nat)
    requires column < n && rows.Length == n && Augmented(rows[..], n)
    requires UnitColumns(rows[..], column, n) && rows[column][column] == 1.0
    modifies rows
    ensures Augmented(rows[..], n) && SameSolutions(old(rows[..]), rows[..], n)
    ensures UnitColumns(rows[..], column + 1, n) && Eliminated(old(rows[..]), rows[..], column, n, n)
  {
    ghost var before := rows[..];
    for row := 0 to n
      invariant Augmented(rows[..], n) && SameSolutions(before, rows[..], n)
      invariant Eliminated(before, rows[..], column, row, n)
      invariant UnitColumns(rows[..], column, n) && rows[column][column] == 1.0
      invariant forall i :: 0 <= i < row && i != column ==> rows[..][i][column] == 0.0
    {
      if row == column {
        continue;
      }
      ghost var now := rows[..];
      var factor := rows[row][column];
      rows[row] := Reduced(rows[row], factor, rows[column]);
      assert rows[..] == now[row := Reduced(now[row], factor, now[column])];
      ReduceKeepsSolutions(now, row, column, factor, n);
      SameSolutionsTransitive(before, now, rows[..], n);
      ReducedUnits(now, row, column, n);
    }
  }

  lemma ReducedUnits(rows: seq<Vector>, row: nat, column: nat, n: nat)
    requires Augmented(rows, n) && row < n && column < n && row != column
    requires UnitColumns(rows, column, n) && rows[column][column] == 1.0
    ensures var reduced := Reduced(rows[row], rows[row][column], rows[column]);
            && reduced[column] == 0.0
            && forall k :: 0 <= k < column ==> reduced[k] == rows[row][k]
  {
    forall k | 0 <= k < column ensures Reduced(rows[row], rows[row][column], rows[column])[k] == rows[row][k] {
      assert rows[column][k] == 0.0;
      assert rows[row][column] * rows[column][k] == 0.0;
    }
  }

  lemma DivideSelf(d: real)
    requires d != 0.0
    ensures d / d == 1.0
  {
  }

  function Normalized(rows: seq<Vector>, column: nat, pivot: nat, n: nat): seq<Vector>
    requires Augmented(rows, n) && column < n && pivot < n && rows[pivot][column] != 0.0
  {
    var swapped := rows[column := rows[pivot]][pivot := rows[column]];
    swapped[column := Divided(swapped[column], swapped[column][column])]
  }

  /** The pivot row moved into place and divided by its pivot. */
  method NormalizePivot(rows: array<Vector>, column: nat, pivot: nat, n: nat)
    requires column <= pivot < n && rows.Length == n && Augmented(rows[..], n)
    requires UnitColumns(rows[..], column, n) && rows[pivot][column] != 0.0
    modifies rows
    ensures Augmented(rows[..], n) && SameSolutions(old(rows[..]), rows[..], n)
    ensures UnitColumns(rows[..], column, n) && rows[column][column] == 1.0
    ensures rows[..] == Normalized(old(rows[..]), column, pivot, n)
  {
    ghost var before := rows[..];
    rows[column], rows[pivot] := rows[pivot], rows[column];
    ghost var swapped := rows[..];
    assert swapped == before[column := before[pivot]][pivot := before[column]];
    SwapKeepsSolutions(before, column, pivot, n);
    var divisor := rows[column][column];
    rows[column] := Divided(rows[column], divisor);
    assert rows[..] == swapped[column := Divided(swapped[column], divisor)];
    DivideKeepsSolutions(swapped, column, divisor, n);
    SameSolutionsTransitive(before, swapped, rows[..], n);
    DivideSelf(divisor);
    forall k | 0 <= k < column ensures rows[column][k] == 0.0 {
      assert swapped[column][k] == 0.0;
    }
  }

  /** One column: pivot row into place, then out of every other row. */
  method ReduceColumn(rows: array<Vector>, column: nat, pivot: nat, n: nat)
    requires column <= pivot < n && rows.Length == n && Augmented(rows[..], n)
    requires UnitColumns(rows[..], column, n) && rows[pivot][column] != 0.0
    modifies rows
    ensures Augmented(rows[..], n) && SameSolutions(old(rows[..]), rows[..], n)
    ensures UnitColumns(rows[..], column + 1, n)
    ensures Pivoted(old(rows[..]), rows[..], column, pivot, n)
  {
    NormalizePivot(rows, column, pivot, n);
    ghost var normalized := rows[..];
    EliminateColumn(rows, column, n);
    SameSolutionsTransitive(old(rows[..]), normalized, rows[..], n);
  }

  ghost predicate Pivoted(before: seq<Vector>, after: seq<Vector>, column: nat, pivot: nat, n: nat)
    requires Augmented(before, n) && |after| == n && column <= pivot < n && before[pivot][column] != 0.0
  {
    Eliminated(Normalized(before, column, pivot, n), after, column, n, n)
  }

  // ---- what the rows still say of the matrix ----

  /** The coefficients of an augmented row times `z`. */
  ghost function Times(row: Vector, z: Vector): real
    requires |row| == |z| + 1
  {
    Dot(row, z + [0.0])
  }

  ghost predicate Orthogonal(rows: seq<Vector>, c: nat, z: Vector)
    requires Augmented(rows, |z|) && c <= |z|
  {
    forall k :: 0 <= k < c ==> Times(rows[k], z) == 0.0
  }

  /** On `z` the original row is void, or one of the rows from `c` on. */
  ghost predicate CarriedAt(row: Vector, rows: seq<Vector>, c: nat, z: Vector)
    requires |row| == |z| + 1 && Augmented(rows, |z|)
  {
    Times(row, z) == 0.0 || exists j :: c <= j < |rows| && Times(row, z) == Times(rows[j], z)
  }

  /** Whatever the first `c` rows do not see, the original rows see as the remaining ones do. */
  ghost predicate Carried(original: seq<Vector>, rows: seq<Vector>, c: nat, n: nat)
    requires Augmented(original, n) && Augmented(rows, n) && c <= n
  {
    forall z: Vector, i :: |z| == n && 0 <= i < n && Orthogonal(rows, c, z) ==> CarriedAt(original[i], rows, c, z)
  }

  lemma CarriedAtFirst(rows: seq<Vector>, n: nat)
    requires Augmented(rows, n)
    ensures Carried(rows, rows, 0, n)
  {
    hide Times;
  }

  lemma PivotedTimes(before: seq<Vector>, after: seq<Vector>, column: nat, pivot: nat, n: nat, z: Vector)
    requires Augmented(before, n) && Augmented(after, n) && column <= pivot < n && before[pivot][column] != 0.0 && |z| == n
    requires Pivoted(before, after, column, pivot, n) && Times(after[column], z) == 0.0
    ensures Times(before[pivot], z) == 0.0
    ensures forall j :: 0 <= j < n && j != column ==>
              Times(after[j], z) == Times(before[if j == pivot then column else j], z)
  {
    hide Dot;
    var normal := Normalized(before, column, pivot, n);
    var divisor := before[pivot][column];
    DotDivided(before[pivot], divisor, z + [0.0]);
    var t := Times(before[pivot], z);
    assert after[column] == normal[column] == Divided(before[pivot], divisor);
    assert t == (t / divisor) * divisor;
    forall j | 0 <= j < n && j != column
      ensures Times(after[j], z) == Times(before[if j == pivot then column else j], z)
    {
      DotReduced(normal[j], normal[j][column], normal[column], z + [0.0]);
    }
  }

  lemma CarriedOver(original: seq<Vector>, before: seq<Vector>, after: seq<Vector>, column: nat, pivot: nat, n: nat)
    requires Augmented(original, n) && Augmented(before, n) && Augmented(after, n) && column <= pivot < n
    requires before[pivot][column] != 0.0 && Pivoted(before, after, column, pivot, n)
    requires Carried(original, before, column, n)
    ensures Carried(original, after, column + 1, n)
  {
    hide Times;
    hide Pivoted;
    forall z: Vector, i | |z| == n && 0 <= i < n && Orthogonal(after, column + 1, z)
      ensures CarriedAt(original[i], after, column + 1, z)
    {
      PivotedTimes(before, after, column, pivot, n, z);
      forall k | 0 <= k < column ensures Times(before[k], z) == 0.0 {
        assert Times(after[k], z) == Times(before[k], z);
      }
      assert CarriedAt(original[i], before, column, z);
      if Times(original[i], z) != 0.0 {
        var j :| column <= j < n && Times(original[i], z) == Times(before[j], z);
        var k := if j == column then pivot else j;
        assert Times(after[k], z) == Times(before[j], z);
      }
    }
  }

  /** A vector with a one in place `stuck` and nothing after it, which every row of the matrix nearly cancels. */
  ghost predicate NearlySingular(matrix: seq<Vector>, stuck: nat, h: Vector) {
    && Square(matrix, |h|) && stuck < |h| && h[stuck] == 1.0
    && (forall k :: stuck < k < |h| ==> h[k] == 0.0)
    && (forall i :: 0 <= i < |matrix| ==> Abs(Dot(matrix[i], h)) < EPSILON)
  }

  lemma PaddedTimes(row: Vector, last: real, z: Vector)
    requires |row| == |z|
    ensures Times(row + [last], z) == Dot(row, z)
  {
    DotConcat(row, [last], z, [0.0]);
    assert [last][1..] == [] && [0.0][1..] == [];
  }

  /** What no usable pivot means for the matrix itself. */
  lemma RefusalIsNearlySingular(matrix: seq<Vector>, vector: Vector, rows: seq<Vector>, stuck: nat)
    requires Square(matrix, |vector|) && Augmented(rows, |vector|) && stuck < |vector| && UnitColumns(rows, stuck, |vector|)
    requires Carried(Augment(matrix, vector), rows, stuck, |vector|)
    requires forall i :: stuck <= i < |vector| ==> Abs(rows[i][stuck]) < EPSILON
    ensures NearlySingular(matrix, stuck, Direction(rows, stuck))
  {
    hide Dot;
    hide Times;
    var n := |vector|;
    var h := Direction(rows, stuck);
    forall j | 0 <= j < n ensures Times(rows[j], h) == if j < stuck then 0.0 else rows[j][stuck] {
      DirectionTimes(rows, j, stuck);
    }
    assert Orthogonal(rows, stuck, h);
    var original := Augment(matrix, vector);
    forall i | 0 <= i < n ensures Abs(Dot(matrix[i], h)) < EPSILON {
      PaddedTimes(matrix[i], vector[i], h);
      assert CarriedAt(original[i], rows, stuck, h);
    }
  }

  lemma DirectionTimes(rows: seq<Vector>, j: nat, stuck: nat)
    requires Augmented(rows, |rows|) && stuck < |rows| && j < |rows| && UnitColumns(rows, stuck, |rows|)
    ensures Times(rows[j], Direction(rows, stuck)) == if j < stuck then 0.0 else rows[j][stuck]
  {
    hide Dot;
    var n := |rows|;
    var row, h := rows[j][..n], Direction(rows, stuck);
    assert rows[j] == row + [rows[j][n]];
    PaddedTimes(row, rows[j][n], h);
    var free := row[stuck := if j < stuck then row[stuck] else 0.0];
    DirectionIsFree(free, j, stuck, h);
    if j < stuck {
      assert free == row;
    } else {
      var rest := seq(n, k => if k == stuck then row[stuck] else 0.0);
      assert row == Added(free, rest);
      DotAdded(free, rest, h);
      OneEntry(rest, stuck, h);
    }
  }

  lemma OneEntry(a: Vector, i: nat, z: Vector)
    requires |a| == |z| && i < |a| && forall k :: 0 <= k < |a| && k != i ==> a[k] == 0.0
    ensures Dot(a, z) == a[i] * z[i]
  {
    hide Dot;
    var unit := seq(|a|, k => if k == i then 1.0 else 0.0);
    assert a == Scaled(a[i], unit);
    DotScaled(a[i], unit, z);
    DotUnit(unit, i, z);
  }

  function RightHandSides(rows: seq<Vector>, n: nat): Vector
    requires Augmented(rows, n)
  {
    seq(n, i requires 0 <= i < n => rows[i][n])
  }

  /**
   Elimination with partial pivoting. A returned vector is the only solution.
   A refusal comes with a system of the same solutions in which no row from
   `stuck` on has a usable pivot, and with a vector that is one in that place and
   that every row of the matrix nearly cancels.
   */
  method Solve(matrix: seq<Vector>, vector: Vector)
    returns (r: Result<Vector, SolveError>, ghost reduced: seq<Vector>, ghost stuck: nat)
    requires Square(matrix, |vector|)
    ensures r.Ok? ==> |r.value| == |vector|
    ensures r.Ok? ==> forall y: Vector :: |y| == |vector| ==> (IsSolution(matrix, vector, y) <==> y == r.value)
    ensures r.Err? ==> stuck < |vector| && Augmented(reduced, |vector|) && UnitColumns(reduced, stuck, |vector|)
    ensures r.Err? ==> SameSolutions(Augment(matrix, vector), reduced, |vector|)
    ensures r.Err? ==> forall i :: stuck <= i < |vector| ==> Abs(reduced[i][stuck]) < EPSILON
    ensures r.Err? ==> NearlySingular(matrix, stuck, Direction(reduced, stuck))
  {
    var size := |vector|;
    var augmented := new Vector[size](i requires 0 <= i < size => matrix[i] + [vector[i]]);
    ghost var original := Augment(matrix, vector);
    assert augmented[..] == original;
    CarriedAtFirst(original, size);
    for column := 0 to size
      invariant Augmented(augmented[..], size) && SameSolutions(original, augmented[..], size)
      invariant UnitColumns(augmented[..], column, size) && Carried(original, augmented[..], column, size)
    {
      var pivot := FindPivot(augmented, column, size);
      if Abs(augmented[pivot][column]) < EPSILON {
        RefusalIsNearlySingular(matrix, vector, augmented[..], column);
        return Err(Singular), augmented[..], column;
      }
      ghost var before := augmented[..];
      ReduceColumn(augmented, column, pivot, size);
      SameSolutionsTransitive(original, before, augmented[..], size);
      CarriedOver(original, before, augmented[..], column, pivot, size);
    }
    reduced, stuck := augmented[..], size;
    var solution := RightHandSides(augmented[..], size);
    ReadOff(matrix, vector, reduced, solution);
    r := Ok(solution);
  }

  /** A system reduced to the identity has its right-hand sides as only solution. */
  lemma ReadOff(matrix: seq<Vector>, vector: Vector, reduced: seq<Vector>, x: Vector)
    requires Square(matrix, |vector|) && |x| == |vector|
    requires Augmented(reduced, |x|) && UnitColumns(reduced, |x|, |x|)
    requires SameSolutions(Augment(matrix, vector), reduced, |x|)
    requires forall i :: 0 <= i < |x| ==> x[i] == reduced[i][|x|]
    ensures forall y: Vector :: |y| == |x| ==> (IsSolution(matrix, vector, y) <==> y == x)
  {
    forall y: Vector | |y| == |x| ensures IsSolution(matrix, vector, y) <==> y == x {
      SolvesIsSolution(matrix, vector, y);
      forall i | 0 <= i < |x| ensures Residual(reduced[i], y) == y[i] - x[i] {
        IdentityRow(reduced[i], i, y);
      }
      if Solves(reduced, y) {
        forall i | 0 <= i < |x| ensures y[i] == x[i] {
          assert Residual(reduced[i], y) == 0.0;
        }
      }
    }
  }

  lemma IdentityRow(row: Vector, i: nat, y: Vector)
    requires |row| == |y| + 1 && i < |y|
    requires forall k :: 0 <= k < |y| ==> row[k] == if k == i then 1.0 else 0.0
    ensures Residual(row, y) == y[i] - row[|y|]
  {
    var n := |y|;
    TakeDrop(row, n);
    assert row[n..] == [row[n]];
    DotConcat(row[..n], row[n..], y, [-1.0]);
    DotUnit(row[..n], i, y);
    assert row[n..][1..] == [] && [-1.0][1..] == [];
    assert Dot(row[n..], [-1.0]) == -row[n];
  }

  // ---- what a refusal means ----

  /** The change of the solution that the stuck column leaves free. */
  function Direction(reduced: seq<Vector>, stuck: nat): Vector
    requires stuck < |reduced| && Augmented(reduced, |reduced|)
  {
    seq(|reduced|, k requires 0 <= k < |reduced| =>
      if k < stuck then -reduced[k][stuck] else if k == stuck then 1.0 else 0.0)
  }

  lemma DirectionIsFree(row: Vector, i: nat, stuck: nat, h: Vector)
    requires |row| == |h| && stuck < |h| && i < |h|
    requires forall k :: 0 <= k < stuck ==> row[k] == if k == i then 1.0 else 0.0
    requires forall k :: stuck < k < |h| ==> h[k] == 0.0
    requires h[stuck] == 1.0
    requires if i < stuck then h[i] == -row[stuck] else row[stuck] == 0.0
    ensures Dot(row, h) == 0.0
  {
    TakeDrop(row, stuck);
    TakeDrop(h, stuck);
    DotConcat(row[..stuck], row[stuck..], h[..stuck], h[stuck..]);
    assert Dot(row[..stuck], h[..stuck]) == if i < stuck then h[i] else 0.0 by {
      if i < stuck {
        DotUnit(row[..stuck], i, h[..stuck]);
      } else {
        DotZero(row[..stuck], h[..stuck]);
      }
    }
    DotCommutes(row[stuck..], h[stuck..]);
    DotUnit(h[stuck..], 0, row[stuck..]);
  }

  /** With no pivot at all in the stuck column, no solution is the only one. */
  lemma NoPivotNotUnique(matrix: seq<Vector>, vector: Vector, reduced: seq<Vector>, stuck: nat, y: Vector)
    returns (other: Vector)
    requires Square(matrix, |vector|) && stuck < |vector|
    requires Augmented(reduced, |vector|) && UnitColumns(reduced, stuck, |vector|)
    requires SameSolutions(Augment(matrix, vector), reduced, |vector|)
    requires forall i :: stuck <= i < |vector| ==> reduced[i][stuck] == 0.0
    requires IsSolution(matrix, vector, y)
    ensures IsSolution(matrix, vector, other) && other != y
  {
    var n := |vector|;
    var h := Direction(reduced, stuck);
    other := Added(y, h);
    assert other[stuck] == y[stuck] + 1.0;
    SolvesIsSolution(matrix, vector, y);
    SolvesIsSolution(matrix, vector, other);
    forall i | 0 <= i < n ensures Residual(reduced[i], other) == Residual(reduced[i], y) {
      DirectionIsFree(reduced[i][..n], i, stuck, h);
      ResidualAdded(reduced[i], y, h);
    }
  }

  lemma ResidualAdded(row: Vector, y: Vector, h: Vector)
    requires |row| == |y| + 1 == |h| + 1
    ensures Residual(row, Added(y, h)) == Residual(row, y) + Dot(row[..|y|], h)
  {
    var n := |y|;
    TakeDrop(row, n);
    DotConcat(row[..n], row[n..], y, [-1.0]);
    DotConcat(row[..n], row[n..], Added(y, h), [-1.0]);
    DotCommutes(row[..n], y);
    DotCommutes(row[..n], h);
    DotCommutes(row[..n], Added(y, h));
    DotAdded(y, h, row[..n]);
  }
}
